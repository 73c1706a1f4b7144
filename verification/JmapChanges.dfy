/** The list of changes that JMAP clients are told of: how change records are folded into it, and what
    it says about the ids that the server has. */
module JmapChanges {
  import opened KeyOrder
  import opened ChangesPaging

  /** A change record with the ids in the order they are stored; a snapshot lists all ids. */
  datatype Record =
    | Entry(inserts: seq<nat>, updates: seq<nat>, childUpdates: seq<nat>, deletes: seq<nat>)
    | Snapshot(ids: seq<nat>)

  // ----- The fold

  predicate IsAlive(x: Item, id: nat) {
    x == Insert(id) || x == Update(id) || x == ChildUpdate(id)
  }

  /** Position of the first item that inserts or updates an id, or the length of the list. */
  function Find(items: seq<Item>, id: nat): (i: nat)
    ensures i <= |items| && (i < |items| ==> IsAlive(items[i], id))
    ensures forall k :: 0 <= k < i ==> !IsAlive(items[k], id)
  {
    if items == [] then 0 else if IsAlive(items[0], id) then 0 else 1 + Find(items[1..], id)
  }

  function Without(items: seq<Item>, i: nat): seq<Item>
    requires i < |items|
  {
    items[..i] + items[i + 1..]
  }

  function AddUpdate(items: seq<Item>, id: nat, isChild: bool): seq<Item> {
    var i := Find(items, id);
    if i == |items| then items + [if isChild then ChildUpdate(id) else Update(id)]
    else if items[i].Insert? then items
    else Without(items, i) + [if isChild && items[i].ChildUpdate? then ChildUpdate(id) else Update(id)]
  }

  function AddDelete(items: seq<Item>, id: nat): seq<Item> {
    var i := Find(items, id);
    if i == |items| then items + [Delete(id)]
    else if items[i].Insert? then Without(items, i)
    else Without(items, i) + [Delete(id)]
  }

  function AddInserts(items: seq<Item>, ids: seq<nat>): seq<Item> {
    if ids == [] then items else AddInserts(items, ids[..|ids| - 1]) + [Insert(ids[|ids| - 1])]
  }

  /** The first `full` ids have been updated themselves, the others only in their children. */
  function AddUpdates(items: seq<Item>, ids: seq<nat>, full: nat): seq<Item> {
    if ids == [] then items
    else
      var n := |ids| - 1;
      AddUpdate(AddUpdates(items, ids[..n], full), ids[n], n >= full)
  }

  function AddDeletes(items: seq<Item>, ids: seq<nat>): seq<Item> {
    if ids == [] then items else AddDelete(AddDeletes(items, ids[..|ids| - 1]), ids[|ids| - 1])
  }

  function AddRecord(items: seq<Item>, r: Record): seq<Item> {
    match r
    case Entry(inserts, updates, childUpdates, deletes) =>
      AddDeletes(AddUpdates(AddInserts(items, inserts), updates + childUpdates, |updates|), deletes)
    case Snapshot(ids) => AddInserts(items, ids)
  }

  /** The list as it is built up. */
  class ChangeList {
    var changes: seq<Item>

    constructor ()
      ensures changes == []
    {
      changes := [];
    }

    method PushInserts(ids: seq<nat>)
      modifies this
      ensures changes == AddInserts(old(changes), ids)
    {
      ghost var before := changes;
      for i := 0 to |ids|
        invariant changes == AddInserts(before, ids[..i])
      {
        assert ids[..i + 1][..i] == ids[..i];
        changes := changes + [Insert(ids[i])];
      }
      assert ids[..|ids|] == ids;
    }

    /** An id that was inserted before needs no update; an earlier update moves to the end. */
    method PushUpdate(id: nat, isChild: bool)
      modifies this
      ensures changes == AddUpdate(old(changes), id, isChild)
    {
      var isChildUpdate := isChild;
      ghost var before := changes;
      for i := 0 to |changes|
        invariant changes == before && isChildUpdate == isChild
        invariant forall k :: 0 <= k < i ==> !IsAlive(changes[k], id)
      {
        if changes[i] == Insert(id) {
          Found(changes, id, i);
          return;
        }
        if changes[i] == Update(id) || changes[i] == ChildUpdate(id) {
          Found(changes, id, i);
          if changes[i].Update? {
            isChildUpdate := false;
          }
          changes := Without(changes, i) + [if isChildUpdate then ChildUpdate(id) else Update(id)];
          return;
        }
      }
      NotFound(changes, id);
      changes := changes + [if isChildUpdate then ChildUpdate(id) else Update(id)];
    }

    /** An id that was inserted before vanishes; an earlier update is dropped. */
    method PushDelete(id: nat)
      modifies this
      ensures changes == AddDelete(old(changes), id)
    {
      ghost var before := changes;
      for i := 0 to |changes|
        invariant changes == before
        invariant forall k :: 0 <= k < i ==> !IsAlive(changes[k], id)
      {
        if changes[i] == Insert(id) {
          Found(changes, id, i);
          changes := Without(changes, i);
          return;
        }
        if changes[i] == Update(id) || changes[i] == ChildUpdate(id) {
          Found(changes, id, i);
          changes := Without(changes, i) + [Delete(id)];
          return;
        }
      }
      NotFound(changes, id);
      changes := changes + [Delete(id)];
    }

    method PushUpdates(ids: seq<nat>, full: nat)
      modifies this
      ensures changes == AddUpdates(old(changes), ids, full)
    {
      ghost var before := changes;
      for i := 0 to |ids|
        invariant changes == AddUpdates(before, ids[..i], full)
      {
        assert ids[..i + 1][..i] == ids[..i];
        PushUpdate(ids[i], i >= full);
      }
      assert ids[..|ids|] == ids;
    }

    method PushDeletes(ids: seq<nat>)
      modifies this
      ensures changes == AddDeletes(old(changes), ids)
    {
      ghost var before := changes;
      for i := 0 to |ids|
        invariant changes == AddDeletes(before, ids[..i])
      {
        assert ids[..i + 1][..i] == ids[..i];
        PushDelete(ids[i]);
      }
      assert ids[..|ids|] == ids;
    }

    method Deserialize(r: Record)
      modifies this
      ensures changes == AddRecord(old(changes), r)
    {
      match r {
        case Entry(inserts, updates, childUpdates, deletes) =>
          PushInserts(inserts);
          PushUpdates(updates + childUpdates, |updates|);
          PushDeletes(deletes);
        case Snapshot(ids) =>
          PushInserts(ids);
      }
    }
  }

  lemma {:induction false} Found(items: seq<Item>, id: nat, i: nat)
    requires i < |items| && IsAlive(items[i], id) && forall k :: 0 <= k < i ==> !IsAlive(items[k], id)
    ensures Find(items, id) == i
  {
    var j := Find(items, id);
    assert !(j < i) && !(i < j);
  }

  lemma NotFound(items: seq<Item>, id: nat)
    requires forall k :: 0 <= k < |items| ==> !IsAlive(items[k], id)
    ensures Find(items, id) == |items|
  {
  }

  // ----- What the list says

  /** What has become of the ids in `start`: now there are `now`, those in `gone` have been deleted on the way, those in
      `touched` updated, and those in `own` not only in their children. */
  datatype Fate = Fate(start: set<nat>, now: set<nat>, gone: set<nat>, touched: set<nat>, own: set<nat>)

  /** `items` tells just that. */
  ghost predicate Tells(items: seq<Item>, x: Fate) {
    && x.gone <= x.start && x.start - x.gone <= x.now && x.own <= x.touched
    && (forall id :: Insert(id) in items <==> id in x.now && (id !in x.start || id in x.gone))
    && (forall id :: Delete(id) in items <==> id in x.gone)
    && (forall id :: Update(id) in items <==> id in x.own && id in x.start - x.gone)
    && (forall id :: ChildUpdate(id) in items <==> id in x.touched - x.own && id in x.start - x.gone)
    && NoRepeats(items) && DeletesFirst(items)
  }

  /** No item occurs twice, nor is an id updated in both ways. */
  ghost predicate NoRepeats(items: seq<Item>) {
    forall i, j :: 0 <= i < j < |items| ==>
      items[i] != items[j] && !(IsUpdate(items[i]) && IsUpdate(items[j]) && items[i].id == items[j].id)
  }

  /** An id that was deleted and has come back is deleted first. */
  ghost predicate DeletesFirst(items: seq<Item>) {
    forall i, j :: 0 <= i < j < |items| && items[i].Insert? && items[j].Delete? ==> items[i].id != items[j].id
  }

  predicate IsUpdate(x: Item) {
    x.Update? || x.ChildUpdate?
  }

  lemma AppendItem(items: seq<Item>, x: Item)
    requires NoRepeats(items) && DeletesFirst(items) && x !in items
    requires IsUpdate(x) ==> Update(x.id) !in items && ChildUpdate(x.id) !in items
    requires x.Delete? ==> Insert(x.id) !in items
    ensures NoRepeats(items + [x]) && DeletesFirst(items + [x])
    ensures forall y :: y in items + [x] <==> y in items || y == x
  {
    forall i, j | 0 <= i < j < |items + [x]|
      ensures var s := items + [x];
              && s[i] != s[j] && !(IsUpdate(s[i]) && IsUpdate(s[j]) && s[i].id == s[j].id)
              && (s[i].Insert? && s[j].Delete? ==> s[i].id != s[j].id)
    {
      assert items[i] in items;
    }
  }

  /** Where an item of the shortened list was. */
  function Before(i: nat, k: nat): nat {
    if k < i then k else k + 1
  }

  lemma WithoutAt(items: seq<Item>, i: nat, k: nat)
    requires i < |items| && k < |items| - 1
    ensures Without(items, i)[k] == items[Before(i, k)]
  {
  }

  lemma WithoutIsOrdered(items: seq<Item>, i: nat)
    requires NoRepeats(items) && DeletesFirst(items) && i < |items|
    ensures NoRepeats(Without(items, i)) && DeletesFirst(Without(items, i))
  {
    var s := Without(items, i);
    forall a, b | 0 <= a < b < |s|
      ensures && s[a] != s[b] && !(IsUpdate(s[a]) && IsUpdate(s[b]) && s[a].id == s[b].id)
              && (s[a].Insert? && s[b].Delete? ==> s[a].id != s[b].id)
    {
      WithoutAt(items, i, a);
      WithoutAt(items, i, b);
    }
  }

  lemma WithoutHas(items: seq<Item>, i: nat, y: Item)
    requires NoRepeats(items) && i < |items|
    ensures y in Without(items, i) <==> y in items && y != items[i]
  {
    var s := Without(items, i);
    if y in s {
      var k :| 0 <= k < |s| && s[k] == y;
      WithoutAt(items, i, k);
      var k' := Before(i, k);
      assert items[k'] == y && k' != i;
    }
    if y in items && y != items[i] {
      var k :| 0 <= k < |items| && items[k] == y;
      WithoutAt(items, i, if k < i then k else k - 1);
    }
  }

  lemma RemoveItem(items: seq<Item>, i: nat)
    requires NoRepeats(items) && DeletesFirst(items) && i < |items|
    ensures NoRepeats(Without(items, i)) && DeletesFirst(Without(items, i))
    ensures forall y :: y in Without(items, i) <==> y in items && y != items[i]
  {
    WithoutIsOrdered(items, i);
    forall y ensures y in Without(items, i) <==> y in items && y != items[i] {
      WithoutHas(items, i, y);
    }
  }

  lemma FindIsThere(items: seq<Item>, id: nat)
    ensures var i := Find(items, id);
            && (i < |items| ==> items[i] in items)
            && (i == |items| ==> Insert(id) !in items && Update(id) !in items && ChildUpdate(id) !in items)
  {
  }

  lemma TellsInsert(items: seq<Item>, x: Fate, id: nat)
    requires Tells(items, x) && id !in x.now
    ensures Tells(items + [Insert(id)], x.(now := x.now + {id}))
  {
    AppendItem(items, Insert(id));
  }

  function Updating(x: Fate, id: nat, isChild: bool): Fate {
    x.(touched := x.touched + {id}, own := x.own + if isChild then {} else {id})
  }

  lemma TellsUpdate(items: seq<Item>, x: Fate, id: nat, isChild: bool)
    requires Tells(items, x) && id in x.now
    ensures Tells(AddUpdate(items, id, isChild), Updating(x, id, isChild))
  {
    var i := Find(items, id);
    FindIsThere(items, id);
    if i == |items| {
      AppendItem(items, if isChild then ChildUpdate(id) else Update(id));
    } else if !items[i].Insert? {
      RemoveItem(items, i);
      OnlyUpdate(items, i);
      AppendItem(Without(items, i), if isChild && items[i].ChildUpdate? then ChildUpdate(id) else Update(id));
    }
  }

  /** Once an update is taken out of the list, the id is not updated any more. */
  lemma OnlyUpdate(items: seq<Item>, i: nat)
    requires NoRepeats(items) && DeletesFirst(items) && i < |items| && IsUpdate(items[i])
    ensures Update(items[i].id) !in Without(items, i) && ChildUpdate(items[i].id) !in Without(items, i)
  {
    RemoveItem(items, i);
    forall k | 0 <= k < |items| && k != i
      ensures items[k] != Update(items[i].id) && items[k] != ChildUpdate(items[i].id)
    {
    }
  }

  function Deleting(x: Fate, id: nat): Fate {
    x.(now := x.now - {id}, gone := x.gone + {id} * x.start)
  }

  lemma DeletesOther(items: seq<Item>, x: Fate, id: nat)
    requires Tells(items, x) && id in x.now && Insert(id) !in items && Update(id) !in items && ChildUpdate(id) !in items
    ensures Tells(items + [Delete(id)], Deleting(x, id))
  {
    AppendItem(items, Delete(id));
  }

  lemma DeletesInserted(items: seq<Item>, x: Fate, i: nat)
    requires Tells(items, x) && i < |items| && items[i].Insert?
    ensures Tells(Without(items, i), Deleting(x, items[i].id))
  {
    assert items[i] in items;
    RemoveItem(items, i);
  }

  lemma DeletesUpdated(items: seq<Item>, x: Fate, i: nat)
    requires Tells(items, x) && i < |items| && IsUpdate(items[i])
    ensures Tells(Without(items, i) + [Delete(items[i].id)], Deleting(x, items[i].id))
  {
    assert items[i] in items;
    RemoveItem(items, i);
    OnlyUpdate(items, i);
    AppendItem(Without(items, i), Delete(items[i].id));
  }

  lemma TellsDelete(items: seq<Item>, x: Fate, id: nat)
    requires Tells(items, x) && id in x.now
    ensures Tells(AddDelete(items, id), Deleting(x, id))
  {
    var i := Find(items, id);
    FindIsThere(items, id);
    if i == |items| {
      DeletesOther(items, x, id);
    } else if items[i].Insert? {
      DeletesInserted(items, x, i);
    } else {
      DeletesUpdated(items, x, i);
    }
  }

  lemma {:induction false} TellsInserts(items: seq<Item>, x: Fate, ids: seq<nat>)
    requires Tells(items, x) && Distinct(ids) && Elements(ids) !! x.now
    ensures Tells(AddInserts(items, ids), x.(now := x.now + Elements(ids)))
    decreases |ids|
  {
    if ids == [] {
      assert x.now + Elements(ids) == x.now;
    } else {
      var n := |ids| - 1;
      Last(ids);
      TellsInserts(items, x, ids[..n]);
      assert x.now + Elements(ids[..n]) + {ids[n]} == x.now + Elements(ids);
      assert ids[n] !in x.now + Elements(ids[..n]);
      TellsInsert(AddInserts(items, ids[..n]), x.(now := x.now + Elements(ids[..n])), ids[n]);
    }
  }

  /** The first `full` of some ids. */
  function Own(ids: seq<nat>, full: nat): set<nat> {
    if |ids| <= full then Elements(ids) else Elements(ids[..full])
  }

  lemma OwnSnoc(ids: seq<nat>, full: nat)
    requires ids != []
    ensures var n := |ids| - 1; Own(ids, full) == Own(ids[..n], full) + if n >= full then {} else {ids[n]}
  {
    var n := |ids| - 1;
    Last(ids);
    if n > full {
      assert ids[..n][..full] == ids[..full];
    } else if n == full {
      assert ids[..n] == ids[..full];
    }
  }

  lemma {:induction false} TellsUpdates(items: seq<Item>, x: Fate, ids: seq<nat>, full: nat)
    requires Tells(items, x) && Elements(ids) <= x.now
    ensures Tells(AddUpdates(items, ids, full), x.(touched := x.touched + Elements(ids), own := x.own + Own(ids, full)))
    decreases |ids|
  {
    if ids == [] {
      assert x.touched + Elements(ids) == x.touched && x.own + Own(ids, full) == x.own;
    } else {
      var n := |ids| - 1;
      Last(ids);
      OwnSnoc(ids, full);
      TellsUpdates(items, x, ids[..n], full);
      var y := x.(touched := x.touched + Elements(ids[..n]), own := x.own + Own(ids[..n], full));
      TellsUpdate(AddUpdates(items, ids[..n], full), y, ids[n], n >= full);
      assert y.touched + {ids[n]} == x.touched + Elements(ids);
      assert y.own + (if n >= full then {} else {ids[n]}) == x.own + Own(ids, full);
    }
  }

  lemma {:induction false} TellsDeletes(items: seq<Item>, x: Fate, ids: seq<nat>)
    requires Tells(items, x) && Distinct(ids) && Elements(ids) <= x.now
    ensures Tells(AddDeletes(items, ids), x.(now := x.now - Elements(ids), gone := x.gone + Elements(ids) * x.start))
    decreases |ids|
  {
    if ids == [] {
      assert x.now - Elements(ids) == x.now && x.gone + Elements(ids) * x.start == x.gone;
    } else {
      var n := |ids| - 1;
      var before := Elements(ids[..n]);
      Last(ids);
      TellsDeletes(items, x, ids[..n]);
      TellsDelete(AddDeletes(items, ids[..n]), x.(now := x.now - before, gone := x.gone + before * x.start), ids[n]);
      assert x.now - before - {ids[n]} == x.now - Elements(ids);
      assert x.gone + before * x.start + {ids[n]} * x.start == x.gone + Elements(ids) * x.start;
    }
  }

  // ----- The net effect of records

  function Elements(ids: seq<nat>): set<nat> {
    set id | id in ids
  }

  predicate Distinct(ids: seq<nat>) {
    forall i, j :: 0 <= i < j < |ids| ==> ids[i] != ids[j]
  }

  lemma Last(ids: seq<nat>)
    requires ids != []
    ensures var n := |ids| - 1;
            && Elements(ids) == Elements(ids[..n]) + {ids[n]}
            && (Distinct(ids) ==> Distinct(ids[..n]) && ids[n] !in Elements(ids[..n]))
  {
    var n := |ids| - 1;
    assert ids == ids[..n] + [ids[n]];
  }

  /** What a server that has the ids `now` may record: ids are new when inserted, there when updated or
      deleted, and a snapshot only stands at the beginning. */
  ghost predicate Fits(r: Record, now: set<nat>) {
    match r
    case Entry(inserts, updates, childUpdates, deletes) =>
      && Distinct(inserts) && Elements(inserts) !! now
      && Elements(updates + childUpdates) <= now + Elements(inserts)
      && Distinct(deletes) && Elements(deletes) <= now + Elements(inserts)
    case Snapshot(ids) => now == {} && Distinct(ids)
  }

  /** The ids a server has after a change. */
  function After(r: Record, now: set<nat>): set<nat> {
    match r
    case Entry(inserts, _, _, deletes) => now + Elements(inserts) - Elements(deletes)
    case Snapshot(ids) => Elements(ids)
  }

  function IdsAfter(records: seq<Record>, start: set<nat>): set<nat> {
    if records == [] then start
    else After(records[|records| - 1], IdsAfter(records[..|records| - 1], start))
  }

  ghost predicate AllFit(records: seq<Record>, start: set<nat>) {
    forall i :: 0 <= i < |records| ==> Fits(records[i], IdsAfter(records[..i], start))
  }

  /** The ids in `start` that have been deleted at some time. */
  function Gone(records: seq<Record>, start: set<nat>): set<nat> {
    if records == [] then {}
    else
      var r := records[|records| - 1];
      Gone(records[..|records| - 1], start) + if r.Entry? then Elements(r.deletes) * start else {}
  }

  /** The ids that have been updated at some time. */
  function Touched(records: seq<Record>): set<nat> {
    if records == [] then {}
    else
      var r := records[|records| - 1];
      Touched(records[..|records| - 1]) + if r.Entry? then Elements(r.updates + r.childUpdates) else {}
  }

  /** The ids that have been updated at some time other than in their children. */
  function Changed(records: seq<Record>): set<nat> {
    if records == [] then {}
    else
      var r := records[|records| - 1];
      Changed(records[..|records| - 1]) + if r.Entry? then Elements(r.updates) else {}
  }

  function FateOf(records: seq<Record>, start: set<nat>): Fate {
    Fate(start, IdsAfter(records, start), Gone(records, start), Touched(records), Changed(records))
  }

  function AddRecords(records: seq<Record>): seq<Item> {
    if records == [] then [] else AddRecord(AddRecords(records[..|records| - 1]), records[|records| - 1])
  }

  /** What one more record makes of the ids. */
  function More(x: Fate, r: Record): Fate {
    match r
    case Entry(_, updates, childUpdates, deletes) =>
      Fate(x.start, After(r, x.now), x.gone + Elements(deletes) * x.start,
           x.touched + Elements(updates + childUpdates), x.own + Elements(updates))
    case Snapshot(_) => x.(now := After(r, x.now))
  }

  lemma TellsRecord(items: seq<Item>, x: Fate, r: Record)
    requires Tells(items, x) && Fits(r, x.now)
    ensures Tells(AddRecord(items, r), More(x, r))
  {
    match r
    case Entry(inserts, updates, childUpdates, deletes) =>
      var ids := updates + childUpdates;
      var x1 := x.(now := x.now + Elements(inserts));
      var x2 := x1.(touched := x.touched + Elements(ids), own := x.own + Elements(updates));
      assert Own(ids, |updates|) == Elements(updates) by {
        assert ids[..|updates|] == updates;
      }
      var items1 := AddInserts(items, inserts);
      TellsInserts(items, x, inserts);
      TellsUpdates(items1, x1, ids, |updates|);
      TellsDeletes(AddUpdates(items1, ids, |updates|), x2, deletes);
    case Snapshot(ids) =>
      TellsInserts(items, x, ids);
      assert x.now + Elements(ids) == Elements(ids);
  }

  /** What the list says about any records: an id is created if it is there now and was not before, or has been
      deleted meanwhile; destroyed if it was there before and has been deleted; and updated if it has been there
      all along and has been updated, in its children only if it never was otherwise. No change is listed twice. */
  lemma {:induction false} ListTells(records: seq<Record>, start: set<nat>)
    requires AllFit(records, start)
    ensures Tells(AddRecords(records), FateOf(records, start))
    decreases |records|
  {
    if records != [] {
      var n := |records| - 1;
      var before := records[..n];
      assert forall i :: 0 <= i <= n ==> before[..i] == records[..i];
      ListTells(before, start);
      TellsRecord(AddRecords(before), FateOf(before, start), records[n]);
      assert records[n].Snapshot? ==> FateOf(before, start).gone + {} == FateOf(before, start).gone;
      assert More(FateOf(before, start), records[n]) == FateOf(records, start);
    }
  }

  lemma {:induction false} KindsOf(items: seq<Item>, id: nat)
    ensures id in Created(items) <==> Insert(id) in items
    ensures id in Updated(items) <==> Update(id) in items || ChildUpdate(id) in items
    ensures id in Destroyed(items) <==> Delete(id) in items
    decreases |items|
  {
    if items != [] {
      var n := |items| - 1;
      assert items == items[..n] + [items[n]];
      KindsOf(items[..n], id);
    }
  }

  /** The ids of a client that drops the destroyed ones and adds the created ones. */
  function Apply(ids: set<nat>, items: seq<Item>): set<nat> {
    ids - Elements(Destroyed(items)) + Elements(Created(items))
  }

  /** Whoever applies the whole list to the ids from before has the ids of the server. An id that came and went
      is not mentioned, updated ids are neither created nor destroyed, and the ids that are both created and
      destroyed are exactly those that were deleted and have come back. */
  lemma NetEffect(records: seq<Record>, start: set<nat>)
    requires AllFit(records, start)
    ensures var items, now := AddRecords(records), IdsAfter(records, start);
            var created, updated, destroyed :=
              Elements(Created(items)), Elements(Updated(items)), Elements(Destroyed(items));
            && Apply(start, items) == now
            && created + updated <= now && destroyed <= start && updated <= start
            && updated !! created + destroyed
            && created * destroyed == Gone(records, start) * now
            && start - now <= destroyed && now - start <= created
            && updated == Touched(records) * (start - Gone(records, start))
            && (forall id :: Update(id) in items <==> id in Changed(records) * (start - Gone(records, start)))
  {
    var items := AddRecords(records);
    ListTells(records, start);
    forall id
      ensures id in Created(items) <==> Insert(id) in items
      ensures id in Updated(items) <==> Update(id) in items || ChildUpdate(id) in items
      ensures id in Destroyed(items) <==> Delete(id) in items
    {
      KindsOf(items, id);
    }
  }

  /** A snapshot hides what was deleted before it: a client that already has ids keeps them all, so it has the ids
      of the server if and only if the server still has every id of the client. */
  lemma AfterSnapshot(ids: seq<nat>, records: seq<Record>, start: set<nat>)
    requires AllFit([Snapshot(ids)] + records, {})
    ensures var items, now := AddRecords([Snapshot(ids)] + records), IdsAfter([Snapshot(ids)] + records, {});
            Apply(start, items) == start + now && (Apply(start, items) == now <==> start <= now)
  {
    var all := [Snapshot(ids)] + records;
    NetEffect(all, {});
    var items := AddRecords(all);
    assert Elements(Destroyed(items)) == {};
    assert Apply({}, items) == Elements(Created(items));
  }

  // ----- A client that follows the pages

  /** The ids of a client after `n` requests that applies every page it receives. */
  ghost function Held(server: (nat, State) -> Response, since: State, n: nat, start: set<nat>): set<nat> {
    if n == 0 then start
    else
      var client, held := Follow(server, since, n - 1), Held(server, since, n - 1, start);
      if client.done then held else Apply(held, server(n - 1, client.state).items)
  }

  /** The client has been told that the id is there before it was told that it was deleted. */
  ghost predicate CameFirst(server: (nat, State) -> Response, since: State, n: nat, id: nat) {
    exists i: nat :: i < n && var items := Follow(server, since, i).items; Insert(id) in items && Delete(id) !in items
  }

  ghost predicate IsHeld(server: (nat, State) -> Response, since: State, n: nat, start: set<nat>, id: nat) {
    var items := Follow(server, since, n).items;
    if Delete(id) in items then Insert(id) in items && !CameFirst(server, since, n, id)
    else id in start || Insert(id) in items
  }

  lemma {:induction false} ItemsStay(server: (nat, State) -> Response, since: State, i: nat, n: nat, x: Item)
    requires i <= n && x in Follow(server, since, i).items
    ensures x in Follow(server, since, n).items
    decreases n
  {
    if i < n {
      ItemsStay(server, since, i, n - 1, x);
    }
  }

  /** Whether an id came first is settled as soon as its deletion has arrived. */
  lemma CameSame(server: (nat, State) -> Response, since: State, n: nat, id: nat)
    requires Delete(id) in Follow(server, since, n).items
    ensures CameFirst(server, since, n + 1, id) <==> CameFirst(server, since, n, id)
  {
  }

  lemma NotSplit(server: (nat, State) -> Response, since: State, n: nat, id: nat)
    requires Insert(id) !in Follow(server, since, n).items
    ensures !CameFirst(server, since, n + 1, id)
  {
    forall i: nat | i < n + 1 ensures Insert(id) !in Follow(server, since, i).items {
      if Insert(id) in Follow(server, since, i).items {
        ItemsStay(server, since, i, n, Insert(id));
      }
    }
  }

  /** One more page. */
  lemma HeldStep(server: (nat, State) -> Response, since: State, n: nat, start: set<nat>, id: nat)
    requires var items := Follow(server, since, n + 1).items; NoRepeats(items) && DeletesFirst(items)
    requires id in Held(server, since, n, start) <==> IsHeld(server, since, n, start, id)
    ensures id in Held(server, since, n + 1, start) <==> IsHeld(server, since, n + 1, start, id)
  {
    var client := Follow(server, since, n);
    if Delete(id) in client.items {
      CameSame(server, since, n, id);
    }
    if !client.done {
      var page := server(n, client.state).items;
      KindsOf(page, id);
      Arrives(page, client.items, id);
      if Insert(id) !in client.items {
        NotSplit(server, since, n, id);
      }
    }
  }

  lemma Arrives(page: seq<Item>, items: seq<Item>, id: nat)
    requires NoRepeats(page + items) && DeletesFirst(page + items)
    ensures !(Delete(id) in page && Delete(id) in items) && !(Insert(id) in page && Insert(id) in items)
    ensures !(Insert(id) in page && Delete(id) in items)
  {
    var all := page + items;
    forall x, y | x in page && y in items
      ensures x != y && (x.Insert? && y.Delete? ==> x.id != y.id)
    {
      var i :| 0 <= i < |page| && page[i] == x;
      var j :| 0 <= j < |items| && items[j] == y;
      assert all[i] == x && all[|page| + j] == y;
    }
  }

  lemma {:induction false} HeldIs(server: (nat, State) -> Response, since: State, n: nat, start: set<nat>, id: nat)
    requires forall i: nat :: i <= n ==>
             var items := Follow(server, since, i).items; NoRepeats(items) && DeletesFirst(items)
    ensures id in Held(server, since, n, start) <==> IsHeld(server, since, n, start, id)
    decreases n
  {
    if n > 0 {
      HeldIs(server, since, n - 1, start, id);
      HeldStep(server, since, n - 1, start, id);
    }
  }

  // ----- Clients and logs

  function RecordsOf(log: Log<Record>, ids: seq<nat>): seq<Record>
    requires forall id :: id in ids ==> id in log
  {
    seq(|ids|, i requires 0 <= i < |ids| => assert ids[i] in ids; log[ids[i]])
  }

  /** The records of a log that a request asks for. */
  function Records(log: Log<Record>, q: Query): seq<Record> {
    RecordsOf(log, Ascending(Selected(log, q)))
  }

  lemma {:induction false} ReadsRecords(log: Log<Record>, ids: seq<nat>, n: nat)
    requires n <= |ids| && forall id :: id in ids ==> id in log
    ensures FoldIds(AddRecord, log, ids, n) == AddRecords(RecordsOf(log, ids)[..n])
    decreases n
  {
    if n > 0 {
      ReadsRecords(log, ids, n - 1);
      var records := RecordsOf(log, ids);
      assert records[..n][..n - 1] == records[..n - 1];
    }
  }

  lemma ChangesTell(log: Log<Record>, q: Query)
    ensures GetChanges(AddRecord, log, q).items == AddRecords(Records(log, q))
  {
    var records := Records(log, q);
    ReadsRecords(log, Ascending(Selected(log, q)), |records|);
    assert records[..|records|] == records;
  }

  // ----- Coming back later

  lemma {:induction false} IdsAfterConcat(a: seq<Record>, b: seq<Record>, start: set<nat>)
    ensures IdsAfter(a + b, start) == IdsAfter(b, IdsAfter(a, start))
    decreases |b|
  {
    if b == [] {
      assert a + b == a;
    } else {
      IdsAfterConcat(a, b[..|b| - 1], start);
      assert (a + b)[..|a + b| - 1] == a + b[..|b| - 1];
    }
  }

  lemma LaterFit(a: seq<Record>, b: seq<Record>, start: set<nat>)
    requires AllFit(a + b, start)
    ensures AllFit(b, IdsAfter(a, start))
  {
    forall i | 0 <= i < |b| ensures Fits(b[i], IdsAfter(b[..i], IdsAfter(a, start))) {
      IdsAfterConcat(a, b[..i], start);
      assert (a + b)[|a| + i] == b[i] && (a + b)[..|a| + i] == a + b[..i];
    }
  }

  lemma RecordsConcat(log: Log<Record>, log': Log<Record>, ids: seq<nat>, later: seq<nat>)
    requires Extends(log, log') && forall id :: id in ids ==> id in log
    requires forall id :: id in ids + later ==> id in log'
    ensures forall id :: id in later ==> id in log'
    ensures RecordsOf(log', ids + later) == RecordsOf(log, ids) + RecordsOf(log', later)
  {
    var all := ids + later;
    forall id | id in later ensures id in log' {
      assert id in all;
    }
    forall i | 0 <= i < |all| ensures RecordsOf(log', all)[i] == (RecordsOf(log, ids) + RecordsOf(log', later))[i] {
      if i < |ids| {
        assert all[i] == ids[i] && ids[i] in ids;
      } else {
        assert all[i] == later[i - |ids|];
      }
    }
  }

  /** A client that comes back with the state it ended in goes on where it was: what it is told of then takes the
      ids of the server from then to now, as what it was told of before took them there. */
  lemma SessionsAddUp(log: Log<Record>, log': Log<Record>, since: State, start: set<nat>)
    requires !since.Intermediate? && Extends(log, log') && AllFit(Records(log', FirstQuery(since)), start)
    requires var changes := GetChanges(AddRecord, log, FirstQuery(since));
             !(since == Initial && changes.items == [] && changes.from == 0)
    ensures var q, to := FirstQuery(since), GetChanges(AddRecord, log, FirstQuery(since)).to;
            var before := IdsAfter(Records(log, q), start);
            && AllFit(Records(log', Since(to)), before)
            && IdsAfter(Records(log', Since(to)), before) == IdsAfter(Records(log', q), start)
    ensures since == Initial ==> Records(log', FirstQuery(since)) == RecordsOf(log', Ascending(log'.Keys))
  {
    var q, to := FirstQuery(since), GetChanges(AddRecord, log, FirstQuery(since)).to;
    SessionsJoin(AddRecord, log, log', since);
    var now, later := Records(log, q), Records(log', Since(to));
    RecordsConcat(log, log', Ascending(Selected(log, q)), Ascending(Selected(log', Since(to))));
    assert Records(log', q) == now + later;
    LaterFit(now, later, start);
    IdsAfterConcat(now, later, start);
    assert since == Initial ==> Selected(log', q) == log'.Keys;
  }

  // ----- Page after page

  lemma EndOfList(items: seq<Item>, k: nat)
    requires k <= |items| && NoRepeats(items) && DeletesFirst(items)
    ensures NoRepeats(items[k..]) && DeletesFirst(items[k..])
  {
    var s := items[k..];
    assert forall i :: 0 <= i < |s| ==> s[i] == items[k + i];
  }

  lemma CourseIsOrdered(changes: Changes, since: State, n: nat, client: Client)
    requires OnCourse(changes, since, n, client) && NoRepeats(changes.items) && DeletesFirst(changes.items)
    ensures NoRepeats(client.items) && DeletesFirst(client.items)
  {
    if !client.done && n > 0 {
      EndOfList(changes.items, |changes.items| - |client.items|);
    }
  }

  lemma PagesAreOrdered(logs: seq<Log<Record>>, maxes: seq<nat>, since: State, n: nat, start: set<nat>, i: nat)
    requires IsServed(logs, maxes, since, n, start) && i <= n
    ensures var items := Follow(Server(AddRecord, logs, maxes), since, i).items; NoRepeats(items) && DeletesFirst(items)
  {
    ChangesTell(logs[0], FirstQuery(since));
    ListTells(Records(logs[0], FirstQuery(since)), start);
    PagingIsExact(AddRecord, logs, maxes, since, i);
    CourseIsOrdered(GetChanges(AddRecord, logs[0], FirstQuery(since)), since, i,
                    Follow(Server(AddRecord, logs, maxes), since, i));
  }

  /** The client has been told on one page that an id is there, and on a later one that it was deleted. */
  ghost predicate IsSplit(server: (nat, State) -> Response, since: State, n: nat, id: nat) {
    Delete(id) in Follow(server, since, n).items && CameFirst(server, since, n, id)
  }

  /** A client that has the ids `start` makes `n` requests while the log grows. */
  ghost predicate IsServed(logs: seq<Log<Record>>, maxes: seq<nat>, since: State, n: nat, start: set<nat>) {
    && n <= |logs| && n <= |maxes| && logs != [] && !since.Intermediate?
    && (forall i :: 0 <= i < |logs| ==> Extends(logs[0], logs[i]))
    && IsStable(logs, GetChanges(AddRecord, logs[0], FirstQuery(since)))
    && AllFit(Records(logs[0], FirstQuery(since)), start)
  }

  /** What a client that is done has received. */
  lemma ReceivedAll(logs: seq<Log<Record>>, maxes: seq<nat>, since: State, n: nat, start: set<nat>)
    requires IsServed(logs, maxes, since, n, start) && Follow(Server(AddRecord, logs, maxes), since, n).done
    ensures var records := Records(logs[0], FirstQuery(since));
            Tells(Follow(Server(AddRecord, logs, maxes), since, n).items, FateOf(records, start))
  {
    ChangesTell(logs[0], FirstQuery(since));
    ListTells(Records(logs[0], FirstQuery(since)), start);
    PagingIsExact(AddRecord, logs, maxes, since, n);
  }

  /** One of the page ends lies between two places of a list. */
  ghost predicate EndsBetween(items: seq<Item>, maxes: seq<nat>, n: nat, a: nat, b: nat)
    requires n <= |maxes|
  {
    exists i: nat :: i < n && |items| - b <= Sent(maxes, |items|, i) < |items| - a
  }

  /** One of the page ends lies between the deletion of an id and its return. */
  ghost predicate IsCut(items: seq<Item>, maxes: seq<nat>, n: nat, id: nat)
    requires n <= |maxes|
  {
    exists a, b :: 0 <= a < b < |items| && items[a] == Delete(id) && items[b] == Insert(id)
                   && EndsBetween(items, maxes, n, a, b)
  }

  lemma InEnd(items: seq<Item>, k: nat, x: Item, at: nat)
    requires k <= |items| && at < |items| && NoRepeats(items) && items[at] == x
    ensures x in items[k..] <==> k <= at
  {
    if k <= at {
      assert items[k..][at - k] == x;
    }
  }

  lemma SplitCameBack(server: (nat, State) -> Response, since: State, n: nat, id: nat)
    requires IsSplit(server, since, n, id)
    ensures Insert(id) in Follow(server, since, n).items && Delete(id) in Follow(server, since, n).items
  {
    var i: nat :| i < n && var items := Follow(server, since, i).items; Insert(id) in items && Delete(id) !in items;
    ItemsStay(server, since, i, n, Insert(id));
  }

  /** A client that follows the pages to the end has the ids the server had at its first request, except those that
      were deleted and came back and whose return was on an earlier page than their deletion. */
  lemma FollowedIds(logs: seq<Log<Record>>, maxes: seq<nat>, since: State, n: nat, start: set<nat>)
    requires IsServed(logs, maxes, since, n, start) && Follow(Server(AddRecord, logs, maxes), since, n).done
    ensures var server, records := Server(AddRecord, logs, maxes), Records(logs[0], FirstQuery(since));
            forall id :: id in Held(server, since, n, start) <==>
                           id in IdsAfter(records, start) && !IsCut(AddRecords(records), maxes, n, id)
  {
    var server, records := Server(AddRecord, logs, maxes), Records(logs[0], FirstQuery(since));
    ReceivedAll(logs, maxes, since, n, start);
    forall i: nat | i <= n
      ensures var items := Follow(server, since, i).items; NoRepeats(items) && DeletesFirst(items)
    {
      PagesAreOrdered(logs, maxes, since, n, start, i);
    }
    forall id
      ensures id in Held(server, since, n, start) <==>
                id in IdsAfter(records, start) && !IsCut(AddRecords(records), maxes, n, id)
    {
      HeldIs(server, since, n, start, id);
      SplitByPages(logs, maxes, since, n, start, id);
    }
  }

  /** What the client has after `i` requests is the end of the list that the pages so far have room for. */
  ghost predicate HasEnd(server: (nat, State) -> Response, since: State, i: nat, items: seq<Item>, maxes: seq<nat>)
    requires i <= |maxes|
  {
    Follow(server, since, i).items == items[|items| - Sent(maxes, |items|, i)..]
  }

  lemma ReceivedBy(logs: seq<Log<Record>>, maxes: seq<nat>, since: State, n: nat, start: set<nat>, i: nat)
    requires IsServed(logs, maxes, since, n, start) && i <= n
    ensures HasEnd(Server(AddRecord, logs, maxes), since, i, AddRecords(Records(logs[0], FirstQuery(since))), maxes)
  {
    ChangesTell(logs[0], FirstQuery(since));
    PageSizes(AddRecord, logs, maxes, since, i);
  }

  lemma DoneHasAll(logs: seq<Log<Record>>, maxes: seq<nat>, since: State, n: nat, start: set<nat>)
    requires IsServed(logs, maxes, since, n, start) && Follow(Server(AddRecord, logs, maxes), since, n).done
    ensures Follow(Server(AddRecord, logs, maxes), since, n).items == AddRecords(Records(logs[0], FirstQuery(since)))
  {
    ChangesTell(logs[0], FirstQuery(since));
    PagingIsExact(AddRecord, logs, maxes, since, n);
  }

  lemma EndLiesBetween(items: seq<Item>, maxes: seq<nat>, n: nat, i: nat, a: nat, b: nat)
    requires i < n <= |maxes| && NoRepeats(items) && a < |items| && b < |items|
    ensures var got := items[|items| - Sent(maxes, |items|, i)..];
            items[b] in got && items[a] !in got <==> |items| - b <= Sent(maxes, |items|, i) < |items| - a
  {
    InEnd(items, |items| - Sent(maxes, |items|, i), items[b], b);
    InEnd(items, |items| - Sent(maxes, |items|, i), items[a], a);
  }

  /** The client receives a list in pages of the given sizes, from its end on, and all of it in the end. */
  ghost predicate Gives(server: (nat, State) -> Response, since: State, n: nat, items: seq<Item>, maxes: seq<nat>) {
    && n <= |maxes| && NoRepeats(items) && DeletesFirst(items) && Follow(server, since, n).items == items
    && forall i: nat :: i < n ==> HasEnd(server, since, i, items, maxes)
  }

  lemma IsGiven(logs: seq<Log<Record>>, maxes: seq<nat>, since: State, n: nat, start: set<nat>)
    requires IsServed(logs, maxes, since, n, start) && Follow(Server(AddRecord, logs, maxes), since, n).done
    ensures Gives(Server(AddRecord, logs, maxes), since, n, AddRecords(Records(logs[0], FirstQuery(since))), maxes)
  {
    var server, items := Server(AddRecord, logs, maxes), AddRecords(Records(logs[0], FirstQuery(since)));
    ListTells(Records(logs[0], FirstQuery(since)), start);
    DoneHasAll(logs, maxes, since, n, start);
    forall i: nat | i < n ensures HasEnd(server, since, i, items, maxes) {
      ReceivedBy(logs, maxes, since, n, start, i);
    }
  }

  lemma SplitIsCut(server: (nat, State) -> Response, since: State, n: nat, items: seq<Item>, maxes: seq<nat>, id: nat)
    requires Gives(server, since, n, items, maxes) && IsSplit(server, since, n, id)
    ensures IsCut(items, maxes, n, id)
  {
    SplitCameBack(server, since, n, id);
    var i: nat :| i < n && var got := Follow(server, since, i).items; Insert(id) in got && Delete(id) !in got;
    var a, b :| 0 <= a < |items| && items[a] == Delete(id) && 0 <= b < |items| && items[b] == Insert(id);
    EndLiesBetween(items, maxes, n, i, a, b);
    assert HasEnd(server, since, i, items, maxes);
    assert a < b && EndsBetween(items, maxes, n, a, b);
  }

  lemma SplitAt(server: (nat, State) -> Response, since: State, n: nat, i: nat, id: nat, got: seq<Item>)
    requires i < n && got == Follow(server, since, i).items && Insert(id) in got && Delete(id) !in got
    requires Delete(id) in Follow(server, since, n).items
    ensures IsSplit(server, since, n, id)
  {
  }

  lemma WhereCut(items: seq<Item>, maxes: seq<nat>, n: nat, id: nat) returns (a: nat, b: nat, i: nat)
    requires n <= |maxes| && IsCut(items, maxes, n, id)
    ensures a < b < |items| && items[a] == Delete(id) && items[b] == Insert(id)
    ensures i < n && |items| - b <= Sent(maxes, |items|, i) < |items| - a
  {
    a, b :| 0 <= a < b < |items| && items[a] == Delete(id) && items[b] == Insert(id)
            && EndsBetween(items, maxes, n, a, b);
    i :| i < n && |items| - b <= Sent(maxes, |items|, i) < |items| - a;
  }

  lemma CutIsSplit(server: (nat, State) -> Response, since: State, n: nat, items: seq<Item>, maxes: seq<nat>, id: nat)
    requires Gives(server, since, n, items, maxes) && IsCut(items, maxes, n, id)
    ensures IsSplit(server, since, n, id)
  {
    var a, b, i := WhereCut(items, maxes, n, id);
    EndLiesBetween(items, maxes, n, i, a, b);
    assert HasEnd(server, since, i, items, maxes);
    SplitAt(server, since, n, i, id, items[|items| - Sent(maxes, |items|, i)..]);
  }

  lemma SplitByPages(logs: seq<Log<Record>>, maxes: seq<nat>, since: State, n: nat, start: set<nat>, id: nat)
    requires IsServed(logs, maxes, since, n, start) && Follow(Server(AddRecord, logs, maxes), since, n).done
    ensures IsSplit(Server(AddRecord, logs, maxes), since, n, id) <==>
            IsCut(AddRecords(Records(logs[0], FirstQuery(since))), maxes, n, id)
  {
    var server, items := Server(AddRecord, logs, maxes), AddRecords(Records(logs[0], FirstQuery(since)));
    IsGiven(logs, maxes, since, n, start);
    if IsSplit(server, since, n, id) {
      SplitIsCut(server, since, n, items, maxes, id);
    }
    if IsCut(items, maxes, n, id) {
      CutIsSplit(server, since, n, items, maxes, id);
    }
  }

  ghost predicate NoneIsCut(items: seq<Item>, maxes: seq<nat>, n: nat)
    requires n <= |maxes|
  {
    forall id :: !IsCut(items, maxes, n, id)
  }

  /** A client that has all ids but those cut by the end of a page. */
  lemma OnlyCutAreLost(items: seq<Item>, maxes: seq<nat>, n: nat, held: set<nat>, now: set<nat>, gone: set<nat>)
    requires n <= |maxes|
    requires forall id :: id in held <==> id in now && !IsCut(items, maxes, n, id)
    requires forall id :: IsCut(items, maxes, n, id) ==> id in now && id in gone
    ensures held == now <==> NoneIsCut(items, maxes, n)
    ensures gone !! now ==> NoneIsCut(items, maxes, n)
    ensures (forall id :: id in now && id in gone ==> IsCut(items, maxes, n, id)) ==> held == now - gone
  {
  }

  /** The client has the ids of the server if and only if no id is cut by the end of a page; none is if no id was
      deleted and came back. */
  lemma ClientHasAllIds(logs: seq<Log<Record>>, maxes: seq<nat>, since: State, n: nat, start: set<nat>)
    requires IsServed(logs, maxes, since, n, start) && Follow(Server(AddRecord, logs, maxes), since, n).done
    ensures var server, records := Server(AddRecord, logs, maxes), Records(logs[0], FirstQuery(since));
            var items, now := AddRecords(records), IdsAfter(records, start);
            && (Held(server, since, n, start) == now <==> NoneIsCut(items, maxes, n))
            && (Gone(records, start) !! now ==> NoneIsCut(items, maxes, n))
  {
    var server, records := Server(AddRecord, logs, maxes), Records(logs[0], FirstQuery(since));
    LostAreCut(logs, maxes, since, n, start);
    OnlyCutAreLost(AddRecords(records), maxes, n, Held(server, since, n, start), IdsAfter(records, start),
                   Gone(records, start));
  }

  lemma LostAreCut(logs: seq<Log<Record>>, maxes: seq<nat>, since: State, n: nat, start: set<nat>)
    requires IsServed(logs, maxes, since, n, start) && Follow(Server(AddRecord, logs, maxes), since, n).done
    ensures n <= |maxes|
    ensures var server, records := Server(AddRecord, logs, maxes), Records(logs[0], FirstQuery(since));
            var now, gone := IdsAfter(records, start), Gone(records, start);
            && (forall id :: id in Held(server, since, n, start) <==>
                             id in now && !IsCut(AddRecords(records), maxes, n, id))
            && (forall id :: IsCut(AddRecords(records), maxes, n, id) ==> id in now && id in gone)
  {
    var records := Records(logs[0], FirstQuery(since));
    FollowedIds(logs, maxes, since, n, start);
    forall id | IsCut(AddRecords(records), maxes, n, id)
      ensures id in IdsAfter(records, start) && id in Gone(records, start)
    {
      CutIsGone(records, maxes, n, start, id);
    }
  }

  lemma CutCameBack(items: seq<Item>, maxes: seq<nat>, n: nat, id: nat)
    requires n <= |maxes| && IsCut(items, maxes, n, id)
    ensures Insert(id) in items && Delete(id) in items
  {
  }

  lemma CutIsGone(records: seq<Record>, maxes: seq<nat>, n: nat, start: set<nat>, id: nat)
    requires AllFit(records, start) && n <= |maxes| && IsCut(AddRecords(records), maxes, n, id)
    ensures id in IdsAfter(records, start) && id in Gone(records, start)
  {
    ListTells(records, start);
    CutCameBack(AddRecords(records), maxes, n, id);
  }

  lemma {:induction false} SentOneByOne(maxes: seq<nat>, total: nat, n: nat)
    requires n <= |maxes| && forall i :: 0 <= i < n ==> maxes[i] == 1
    ensures Sent(maxes, total, n) == if n < total then n else total
    decreases n
  {
    if n > 0 {
      SentOneByOne(maxes, total, n - 1);
    }
  }

  lemma AllAreCut(items: seq<Item>, maxes: seq<nat>, n: nat, id: nat)
    requires n <= |maxes| && (forall i :: 0 <= i < n ==> maxes[i] == 1) && |items| <= n && DeletesFirst(items)
    requires Insert(id) in items && Delete(id) in items
    ensures IsCut(items, maxes, n, id)
  {
    var a :| 0 <= a < |items| && items[a] == Delete(id);
    var b :| 0 <= b < |items| && items[b] == Insert(id);
    SentOneByOne(maxes, |items|, |items| - b);
  }

  /** A client that asks for the changes one by one loses exactly the ids that were deleted and came back, and for
      good, as it ends in the exact state of the server. */
  lemma ReusedIdsAreLost(logs: seq<Log<Record>>, maxes: seq<nat>, since: State, n: nat, start: set<nat>)
    requires IsServed(logs, maxes, since, n, start) && Follow(Server(AddRecord, logs, maxes), since, n).done
    requires forall i :: 0 <= i < n ==> maxes[i] == 1
    ensures var server, records := Server(AddRecord, logs, maxes), Records(logs[0], FirstQuery(since));
            Held(server, since, n, start) == IdsAfter(records, start) - Gone(records, start)
  {
    var server, records := Server(AddRecord, logs, maxes), Records(logs[0], FirstQuery(since));
    var items := AddRecords(records);
    LostAreCut(logs, maxes, since, n, start);
    forall id | id in IdsAfter(records, start) && id in Gone(records, start) ensures IsCut(items, maxes, n, id) {
      ReturnIsCut(logs, maxes, since, n, start, id);
    }
    OnlyCutAreLost(items, maxes, n, Held(server, since, n, start), IdsAfter(records, start), Gone(records, start));
  }

  lemma ReturnIsCut(logs: seq<Log<Record>>, maxes: seq<nat>, since: State, n: nat, start: set<nat>, id: nat)
    requires IsServed(logs, maxes, since, n, start) && Follow(Server(AddRecord, logs, maxes), since, n).done
    requires forall i :: 0 <= i < n ==> maxes[i] == 1
    requires var records := Records(logs[0], FirstQuery(since));
             id in IdsAfter(records, start) && id in Gone(records, start)
    ensures IsCut(AddRecords(Records(logs[0], FirstQuery(since))), maxes, n, id)
  {
    var records := Records(logs[0], FirstQuery(since));
    var items := AddRecords(records);
    ListTells(records, start);
    ReceivedBy(logs, maxes, since, n, start, n);
    DoneHasAll(logs, maxes, since, n, start);
    SentOneByOne(maxes, |items|, n);
    AllAreCut(items, maxes, n, id);
  }

  lemma OneInsert(items: seq<Item>, id: nat)
    ensures AddInserts(items, [id]) == items + [Insert(id)]
  {
    assert AddInserts(items, []) == items;
    assert [id][..0] == [];
  }

  lemma FoldsReturn(id: nat)
    ensures AddRecord(AddRecord([], Entry([], [], [], [id])), Entry([id], [], [], [])) == [Delete(id), Insert(id)]
  {
    assert AddDeletes([], [id]) == [Delete(id)];
    OneInsert([Delete(id)], id);
  }

  lemma ReadsTwo<R>(fold: Fold<R>, log: Log<R>, q: Query, items: seq<Item>)
    requires log.Keys == {1, 2} && fold(fold([], log[1]), log[2]) == items
    requires q == Since(0) || q == RangeInclusive(1, 2)
    ensures GetChanges(fold, log, q) == Changes(items, 1, 2) && Ascending(Selected(log, q)) == [1, 2]
  {
    assert FoldIds(fold, log, [1, 2], 0) == [];
    assert FoldIds(fold, log, [1, 2], 1) == fold([], log[1]);
    ReadBy(fold, log, q, [1, 2], Changes(items, 1, 2));
    SelectedAre(log, q, [1, 2]);
  }

  lemma TwoPages(server: (nat, State) -> Response, since: State, id: nat, start: set<nat>)
    requires server(0, since) == Response([Insert(id)], true, Intermediate(1, 2, 1))
    requires server(1, Intermediate(1, 2, 1)) == Response([Delete(id)], false, Exact(2))
    ensures Follow(server, since, 2).done && id !in Held(server, since, 2, start)
  {
    assert Follow(server, since, 0) == Client(since, [], false);
    assert [Insert(id)] + [] == [Insert(id)];
    assert Follow(server, since, 1) == Client(Intermediate(1, 2, 1), [Insert(id)], false);
    KindsOf([Delete(id)], id);
  }

  lemma PagesOfReturn<R>(fold: Fold<R>, log: Log<R>, id: nat, start: set<nat>)
    requires log.Keys == {1, 2} && fold(fold([], log[1]), log[2]) == [Delete(id), Insert(id)]
    ensures var server := Server(fold, [log, log], [1, 1]);
            Follow(server, Exact(0), 2).done && id !in Held(server, Exact(0), 2, start)
  {
    var items := [Delete(id), Insert(id)];
    ReadsTwo(fold, log, Since(0), items);
    ReadsTwo(fold, log, RangeInclusive(1, 2), items);
    assert PageOf(Changes(items, 1, 2), 0, 1) == Response([Insert(id)], true, Intermediate(1, 2, 1));
    assert PageOf(Changes(items, 1, 2), 1, 1) == Response([Delete(id)], false, Exact(2));
    TwoPages(Server(fold, [log, log], [1, 1]), Exact(0), id, start);
  }

  lemma ComesBack(id: nat)
    ensures var records := [Entry([], [], [], [id]), Entry([id], [], [], [])];
            AllFit(records, {id}) && IdsAfter(records, {id}) == {id}
  {
    var records := [Entry([], [], [], [id]), Entry([id], [], [], [])];
    assert records[..0] == [] && records[..1] == [records[0]];
    assert IdsAfter(records[..0], {id}) == {id};
    assert IdsAfter(records[..1], {id}) == {};
  }

  lemma RecordsOfReturn(log: Log<Record>)
    requires log.Keys == {1, 2}
    ensures Records(log, Since(0)) == [log[1], log[2]]
  {
    ReadsTwo(AddRecord, log, Since(0), AddRecord(AddRecord([], log[1]), log[2]));
    assert RecordsOf(log, [1, 2]) == [log[1], log[2]];
  }

  /** The proviso is needed: an id that is deleted and assigned again is lost to a client that asks for the two
      changes one by one, and for good, as it ends in the exact state of the server. */
  lemma ReusedIdIsLost(id: nat)
    ensures var log := map[1 := Entry([], [], [], [id]), 2 := Entry([id], [], [], [])];
            var server := Server(AddRecord, [log, log], [1, 1]);
            && AllFit(Records(log, Since(0)), {id}) && IdsAfter(Records(log, Since(0)), {id}) == {id}
            && Follow(server, Exact(0), 2).done && id !in Held(server, Exact(0), 2, {id})
  {
    var log := map[1 := Entry([], [], [], [id]), 2 := Entry([id], [], [], [])];
    FoldsReturn(id);
    PagesOfReturn(AddRecord, log, id, {id});
    RecordsOfReturn(log);
    ComesBack(id);
  }

  /** 0 as last id of a range repeats a change for these records, too. */
  lemma ZeroRangeRepeats(id: nat)
    ensures var log := map[0 := Entry([id, id + 1], [], [], [])];
            var log' := log[1 := Entry([id + 2], [], [], [])];
            && Extends(log, log')
            && Follow(Server(AddRecord, [log, log'], [1, 1]), Initial, 2).items == [Insert(id + 1), Insert(id + 1)]
  {
    var items := [Insert(id), Insert(id + 1)];
    OneInsert([], id);
    OneInsert(items, id + 2);
    assert [id, id + 1][..1] == [id];
    assert AddInserts([], [id, id + 1]) == items;
    ZeroRangeBreaks(AddRecord, Entry([id, id + 1], [], [], []), Entry([id + 2], [], [], []), items, Insert(id + 2));
    assert map[0 := Entry([id, id + 1], [], [], [])][1 := Entry([id + 2], [], [], [])]
        == map[0 := Entry([id, id + 1], [], [], []), 1 := Entry([id + 2], [], [], [])];
  }
}

/** JMAP `/changes`: answering in pages (section 5.2 of RFC 8620), and what a client gets that
    follows the returned states while the log grows. */
module ChangesPaging {
  import opened KeyOrder

  datatype Item = Insert(id: nat) | Update(id: nat) | ChildUpdate(id: nat) | Delete(id: nat)

  datatype State = Initial | Exact(id: nat) | Intermediate(from: nat, to: nat, sent: nat)

  /** The change records of one account and collection by their ids. */
  type Log<R> = map<nat, R>

  /** How one more record is added to a list of changes. */
  type Fold<!R> = (seq<Item>, R) -> seq<Item>

  datatype Query = All | Since(id: nat) | RangeInclusive(from: nat, to: nat)

  datatype Changes = Changes(items: seq<Item>, from: nat, to: nat)

  // ----- Reading the log

  /** Whether the first id is included, that id, and the last id, where 0 stands for "no limit". */
  function Bounds(q: Query): (bool, nat, nat) {
    match q
    case All => (true, 0, 0)
    case Since(id) => (false, id, 0)
    case RangeInclusive(from, to) => (true, from, to)
  }

  predicate IsSelected(q: Query, id: nat) {
    var (inclusive, from, to) := Bounds(q);
    (id > from || (inclusive && id == from)) && (to > 0 ==> id <= to)
  }

  function Selected<R>(log: Log<R>, q: Query): set<nat> {
    set id | id in log && IsSelected(q, id)
  }

  function FoldIds<R>(fold: Fold<R>, log: Log<R>, ids: seq<nat>, n: nat): seq<Item>
    requires n <= |ids| && forall id :: id in ids ==> id in log
  {
    if n == 0 then []
    else
      assert ids[n - 1] in ids;
      fold(FoldIds(fold, log, ids, n - 1), log[ids[n - 1]])
  }

  function GetChanges<R>(fold: Fold<R>, log: Log<R>, q: Query): Changes {
    ReadIds(fold, log, q, Ascending(Selected(log, q)))
  }

  function ReadIds<R>(fold: Fold<R>, log: Log<R>, q: Query, ids: seq<nat>): Changes
    requires forall id :: id in ids ==> id in log
  {
    var (_, from, to) := Bounds(q);
    if ids == [] then Changes([], from, if to > 0 then to else from)
    else Changes(FoldIds(fold, log, ids, |ids|), ids[0], ids[|ids| - 1])
  }

  lemma {:induction false} IncreasingUnique(r: seq<nat>, q: seq<nat>)
    requires Increasing(r) && Increasing(q) && forall x :: x in r <==> x in q
    ensures r == q
    decreases |r|
  {
    assert q != [] ==> q[0] in q;
    if r != [] {
      assert r[0] in q && q != [] && q[0] in r;
      assert r[0] == q[0] by {
        var i :| 0 <= i < |q| && q[i] == r[0];
        var j :| 0 <= j < |r| && r[j] == q[0];
      }
      forall x ensures x in r[1..] <==> x in q[1..] {
        assert x in r <==> x == r[0] || x in r[1..];
        assert x in q <==> x == q[0] || x in q[1..];
      }
      IncreasingUnique(r[1..], q[1..]);
    }
  }

  lemma {:induction false} FoldSame<R>(fold: Fold<R>, log: Log<R>, log': Log<R>, ids: seq<nat>, ids': seq<nat>, n: nat)
    requires n <= |ids| && n <= |ids'| && ids[..n] == ids'[..n]
    requires forall id :: id in ids ==> id in log
    requires forall id :: id in ids' ==> id in log'
    requires forall i :: 0 <= i < n ==> ids[i] in log && ids[i] in log' && log[ids[i]] == log'[ids[i]]
    ensures FoldIds(fold, log, ids, n) == FoldIds(fold, log', ids', n)
    decreases n
  {
    if n > 0 {
      assert ids[..n][..n - 1] == ids[..n - 1] && ids'[..n][..n - 1] == ids'[..n - 1];
      assert ids[n - 1] == ids[..n][n - 1] == ids'[..n][n - 1] == ids'[n - 1];
      FoldSame(fold, log, log', ids, ids', n - 1);
    }
  }

  method ListIds(ids: set<nat>) returns (ks: seq<nat>)
    ensures Increasing(ks) && forall id :: id in ks <==> id in ids
  {
    ks := Ascending(ids);
  }

  /** `ids` are the selected ones among the first `i` ids of a scan. */
  ghost predicate Scanned(q: Query, ks: seq<nat>, i: nat, ids: seq<nat>)
    requires i <= |ks|
  {
    && Increasing(ids)
    && (forall id :: id in ids ==> id in ks && IsSelected(q, id))
    && (forall j :: 0 <= j < i && IsSelected(q, ks[j]) ==> ks[j] in ids)
    && (i < |ks| ==> forall id :: id in ids ==> id < ks[i])
  }

  lemma ScanTakes(q: Query, ks: seq<nat>, i: nat, ids: seq<nat>)
    requires i < |ks| && Increasing(ks) && Scanned(q, ks, i, ids) && IsSelected(q, ks[i])
    ensures Scanned(q, ks, i + 1, ids + [ks[i]])
  {
    var more := ids + [ks[i]];
    assert forall id :: id in more <==> id in ids || id == ks[i];
    forall a, b | 0 <= a < b < |more| ensures more[a] < more[b] {
      assert ids[a] in ids;
    }
  }

  lemma ScanSkips(q: Query, ks: seq<nat>, i: nat, ids: seq<nat>)
    requires i < |ks| && Increasing(ks) && Scanned(q, ks, i, ids) && !IsSelected(q, ks[i])
    ensures Scanned(q, ks, i + 1, ids)
  {
  }

  /** The scan may stop at an id beyond the last one. */
  lemma ScanEnds<R>(log: Log<R>, q: Query, ks: seq<nat>, i: nat, ids: seq<nat>)
    requires i <= |ks| && Increasing(ks) && Scanned(q, ks, i, ids)
    requires forall id :: id in ks <==> id in log && id >= Bounds(q).1
    requires i < |ks| ==> Bounds(q).2 > 0 && ks[i] > Bounds(q).2
    ensures Ascending(Selected(log, q)) == ids
  {
    forall id ensures id in Selected(log, q) <==> id in ids {
      if id in Selected(log, q) {
        SelectedIsScanned(q, ks, i, ids, id);
      }
    }
    IncreasingUnique(ids, Ascending(Selected(log, q)));
  }

  lemma SelectedIsScanned(q: Query, ks: seq<nat>, i: nat, ids: seq<nat>, id: nat)
    requires i <= |ks| && Increasing(ks) && Scanned(q, ks, i, ids)
    requires i < |ks| ==> Bounds(q).2 > 0 && ks[i] > Bounds(q).2
    requires id in ks && IsSelected(q, id)
    ensures id in ids
  {
    var j :| 0 <= j < |ks| && ks[j] == id;
    assert i < |ks| ==> ks[j] < ks[i];
    assert j < i;
  }

  /** What the scan has read so far. */
  ghost predicate ReadSoFar<R>(fold: Fold<R>, log: Log<R>, ids: seq<nat>, r: Changes) {
    && (forall id :: id in ids ==> id in log)
    && if ids == [] then r.items == [] else r == Changes(FoldIds(fold, log, ids, |ids|), ids[0], ids[|ids| - 1])
  }

  lemma ReadOne<R>(fold: Fold<R>, log: Log<R>, ids: seq<nat>, r: Changes, id: nat)
    requires ReadSoFar(fold, log, ids, r) && id in log
    ensures ReadSoFar(fold, log, ids + [id], Changes(fold(r.items, log[id]), if ids == [] then id else r.from, id))
  {
    var more := ids + [id];
    assert forall x :: x in more ==> x in log;
    assert more[..|ids|] == ids[..|ids|];
    forall i | 0 <= i < |ids| ensures more[i] in log && more[i] == ids[i] {
      assert ids[i] in ids;
    }
    FoldSame(fold, log, log, more, ids, |ids|);
  }

  /** `get_changes`: a forward scan from the first id. */
  method ReadChanges<R>(fold: Fold<R>, log: Log<R>, q: Query) returns (r: Changes)
    ensures r == GetChanges(fold, log, q)
  {
    var (inclusive, from, to) := Bounds(q);
    var ks := ListIds(set id | id in log && id >= from);
    ghost var ids: seq<nat> := [];
    r := Changes([], 0, 0);
    var i, isFirst, done := 0, true, false;
    while i < |ks| && !done
      invariant 0 <= i <= |ks|
      invariant Scanned(q, ks, i, ids) && ReadSoFar(fold, log, ids, r)
      invariant isFirst <==> ids == []
      invariant done ==> i < |ks| && to > 0 && ks[i] > to
      decreases |ks| - i, !done
    {
      var id := ks[i];
      assert id in ks;
      if id > from || (inclusive && id == from) {
        if to > 0 && id > to {
          done := true;
        } else {
          ScanTakes(q, ks, i, ids);
          ReadOne(fold, log, ids, r, id);
          r := Changes(fold(r.items, log[id]), if isFirst then id else r.from, id);
          isFirst, ids, i := false, ids + [id], i + 1;
        }
      } else {
        ScanSkips(q, ks, i, ids);
        i := i + 1;
      }
    }
    ScanEnds(log, q, ks, i, ids);
    if isFirst {
      r := Changes([], from, if to > 0 then to else from);
    }
  }

  // ----- Answering a request

  datatype Response = Response(items: seq<Item>, hasMore: bool, newState: State)

  /** The page of a list of changes of which the last `sent` have been sent: the last ones before
      those. */
  function PageOf(changes: Changes, sent: nat, max: nat): Response
    requires sent <= |changes.items|
  {
    var left := |changes.items| - sent;
    if max > 0 && left > max then
      Response(changes.items[left - max..left], true, Intermediate(changes.from, changes.to, sent + max))
    else Response(changes.items[..left], false, Exact(changes.to))
  }

  function Answer<R>(fold: Fold<R>, log: Log<R>, since: State, max: nat): Response {
    match since
    case Initial =>
      var changes := GetChanges(fold, log, All);
      if changes.items == [] && changes.from == 0 then Response([], false, Initial) else PageOf(changes, 0, max)
    case Exact(id) => PageOf(GetChanges(fold, log, Since(id)), 0, max)
    case Intermediate(from, to, sent) =>
      var changes := GetChanges(fold, log, RangeInclusive(from, to));
      if sent >= |changes.items| then PageOf(GetChanges(fold, log, Since(to)), 0, max) else PageOf(changes, sent, max)
  }

  function Created(items: seq<Item>): seq<nat> {
    if items == [] then []
    else Created(items[..|items| - 1]) + var x := items[|items| - 1]; if x.Insert? then [x.id] else []
  }

  function Updated(items: seq<Item>): seq<nat> {
    if items == [] then []
    else Updated(items[..|items| - 1]) + var x := items[|items| - 1]; if x.Update? || x.ChildUpdate? then [x.id] else []
  }

  function Destroyed(items: seq<Item>): seq<nat> {
    if items == [] then []
    else Destroyed(items[..|items| - 1]) + var x := items[|items| - 1]; if x.Delete? then [x.id] else []
  }

  /** Reads the changes a state asks for, and cuts off what was sent and what does not fit. */
  method TakePage<R>(fold: Fold<R>, log: Log<R>, since: State, max: nat) returns (r: Response)
    ensures r == Answer(fold, log, since, max)
  {
    match since {
      case Initial =>
        var changes := ReadChanges(fold, log, All);
        if changes.items == [] && changes.from == 0 {
          return Response([], false, Initial);
        }
        return PageOf(changes, 0, max);
      case Exact(id) =>
        var changes := ReadChanges(fold, log, Since(id));
        return PageOf(changes, 0, max);
      case Intermediate(from, to, sent) =>
        var changes := ReadChanges(fold, log, RangeInclusive(from, to));
        if sent >= |changes.items| {
          changes := ReadChanges(fold, log, Since(to));
          return PageOf(changes, 0, max);
        }
        return PageOf(changes, sent, max);
    }
  }

  method SortByKind(items: seq<Item>)
    returns (created: seq<nat>, updated: seq<nat>, destroyed: seq<nat>, onlyChildren: bool)
    ensures created == Created(items) && updated == Updated(items) && destroyed == Destroyed(items)
    ensures |created| + |updated| + |destroyed| == |items|
    ensures onlyChildren <==> updated != [] && forall x :: x in items ==> !x.Update?
  {
    created, updated, destroyed := [], [], [];
    var changed := false;
    for i := 0 to |items|
      invariant created == Created(items[..i]) && updated == Updated(items[..i]) && destroyed == Destroyed(items[..i])
      invariant |created| + |updated| + |destroyed| == i
      invariant changed <==> exists x :: x in items[..i] && x.Update?
    {
      assert items[..i + 1][..i] == items[..i];
      assert items[..i + 1] == items[..i] + [items[i]];
      match items[i] {
        case Insert(id) => created := created + [id];
        case Update(id) =>
          changed := true;
          updated := updated + [id];
        case Delete(id) => destroyed := destroyed + [id];
        case ChildUpdate(id) => updated := updated + [id];
      }
    }
    assert items[..|items|] == items;
    onlyChildren := updated != [] && !changed;
  }

  /** `changes`: one page, sorted by kind. The configured page size wins if it is smaller. */
  method AnswerRequest<R>(fold: Fold<R>, log: Log<R>, since: State, requested: nat, configured: nat)
    returns (r: Response, created: seq<nat>, updated: seq<nat>, destroyed: seq<nat>, onlyChildren: bool)
    ensures r == Answer(fold, log, since, if 0 < configured < requested then configured else requested)
    ensures created == Created(r.items) && updated == Updated(r.items) && destroyed == Destroyed(r.items)
    ensures |created| + |updated| + |destroyed| == |r.items|
    ensures onlyChildren <==> updated != [] && forall x :: x in r.items ==> !x.Update?
  {
    var max := if configured > 0 && configured < requested then configured else requested;
    r := TakePage(fold, log, since, max);
    created, updated, destroyed, onlyChildren := SortByKind(r.items);
  }

  // ----- Following the returned states

  /** The log has been appended to. */
  ghost predicate Extends<R>(log: Log<R>, log': Log<R>) {
    && (forall id :: id in log ==> id in log' && log'[id] == log[id])
    && (forall id, id' :: id in log && id' in log' && id' !in log ==> id < id')
  }

  /** The changes of a query, given the selected ids in order. */
  ghost predicate Reads<R>(fold: Fold<R>, log: Log<R>, q: Query, ids: seq<nat>, changes: Changes) {
    && Increasing(ids) && (forall id :: id in ids <==> id in log && IsSelected(q, id))
    && (ids != [] ==> changes == Changes(FoldIds(fold, log, ids, |ids|), ids[0], ids[|ids| - 1]))
    && (ids == [] ==> changes.items == [])
  }

  lemma IdsOf<R>(fold: Fold<R>, log: Log<R>, q: Query) returns (ids: seq<nat>)
    ensures Reads(fold, log, q, ids, GetChanges(fold, log, q))
  {
    ids := Ascending(Selected(log, q));
  }

  lemma ReadBy<R>(fold: Fold<R>, log: Log<R>, q: Query, ids: seq<nat>, changes: Changes)
    requires ids != [] && Reads(fold, log, q, ids, changes)
    ensures GetChanges(fold, log, q) == changes
  {
    SelectedAre(log, q, ids);
  }

  lemma SelectedAre<R>(log: Log<R>, q: Query, ids: seq<nat>)
    requires Increasing(ids) && forall id :: id in ids <==> id in log && IsSelected(q, id)
    ensures Ascending(Selected(log, q)) == ids
  {
    IncreasingUnique(ids, Ascending(Selected(log, q)));
  }

  lemma FirstAndLast(ids: seq<nat>, id: nat)
    requires Increasing(ids) && id in ids
    ensures ids[0] <= id <= ids[|ids| - 1]
  {
    var j :| 0 <= j < |ids| && ids[j] == id;
  }

  /** The ids between the first and the last id of a list are those of the list. */
  lemma SameIds<R>(log: Log<R>, log': Log<R>, q: Query, ids: seq<nat>, id: nat)
    requires Extends(log, log') && !q.RangeInclusive? && ids != [] && Increasing(ids)
    requires forall id :: id in ids <==> id in log && IsSelected(q, id)
    requires ids[|ids| - 1] > 0 || log' == log
    ensures id in ids <==> id in log' && IsSelected(RangeInclusive(ids[0], ids[|ids| - 1]), id)
  {
    assert ids[0] in ids && ids[|ids| - 1] in ids;
    if id in ids {
      FirstAndLast(ids, id);
    }
    if id in log' && IsSelected(RangeInclusive(ids[0], ids[|ids| - 1]), id) {
      assert id in log;
    }
  }

  /** However the log grows, the range between the first and the last id gives the same changes,
      unless the last id is 0. */
  lemma RangeIsStable<R>(fold: Fold<R>, log: Log<R>, log': Log<R>, q: Query)
    requires Extends(log, log') && !q.RangeInclusive?
    requires var changes := GetChanges(fold, log, q); changes.items != [] && (changes.to > 0 || log' == log)
    ensures var changes := GetChanges(fold, log, q);
            GetChanges(fold, log', RangeInclusive(changes.from, changes.to)) == changes
  {
    var changes := GetChanges(fold, log, q);
    var ids := IdsOf(fold, log, q);
    forall id ensures id in ids <==> id in log' && IsSelected(RangeInclusive(ids[0], ids[|ids| - 1]), id) {
      SameIds(log, log', q, ids, id);
    }
    forall i | 0 <= i < |ids| ensures ids[i] in log && ids[i] in log' && log[ids[i]] == log'[ids[i]] {
      assert ids[i] in ids;
    }
    FoldSame(fold, log, log', ids, ids, |ids|);
    ReadBy(fold, log', RangeInclusive(changes.from, changes.to), ids, changes);
  }

  function FirstQuery(since: State): Query
    requires !since.Intermediate?
  {
    if since.Initial? then All else Since(since.id)
  }

  /** A server whose log may have grown between requests, and whose clients may ask for another
      page size every time: its answer to the `i`-th request. */
  function Server<R>(fold: Fold<R>, logs: seq<Log<R>>, maxes: seq<nat>): (nat, State) -> Response {
    (i: nat, state: State) =>
      if i < |logs| && i < |maxes| then Answer(fold, logs[i], state, maxes[i]) else Response([], false, state)
  }

  /** A client that follows the returned states: its state after `n` requests, the changes it has
      received, later pages first, and whether it was told that there are no more. */
  ghost function Follow(server: (nat, State) -> Response, since: State, n: nat): Client {
    if n == 0 then Client(since, [], false)
    else
      var client := Follow(server, since, n - 1);
      if client.done then client else Received(client, server(n - 1, client.state))
  }

  datatype Client = Client(state: State, items: seq<Item>, done: bool)

  function Received(client: Client, r: Response): Client {
    Client(r.newState, r.items + client.items, !r.hasMore)
  }

  /** The client has received the end of the list, or all of it. */
  ghost predicate OnCourse(changes: Changes, since: State, n: nat, client: Client) {
    if client.done then
      && client.items == changes.items
      && client.state ==
         if since == Initial && changes.items == [] && changes.from == 0 then Initial else Exact(changes.to)
    else if n == 0 then client == Client(since, [], false)
    else
      var sent := |client.items|;
      && n <= sent < |changes.items| && client.items == changes.items[|changes.items| - sent..]
      && client.state == Intermediate(changes.from, changes.to, sent)
  }

  lemma PageKeepsCourse(changes: Changes, since: State, n: nat, client: Client, max: nat)
    requires var sent := |client.items|;
             n <= sent <= |changes.items| && client.items == changes.items[|changes.items| - sent..]
    requires since == Initial && changes.items == [] ==> changes.from != 0
    ensures OnCourse(changes, since, n + 1, Received(client, PageOf(changes, |client.items|, max)))
  {
    var left := |changes.items| - |client.items|;
    if max > 0 && left > max {
      assert changes.items[left - max..left] + changes.items[left..] == changes.items[left - max..];
    } else {
      assert changes.items[..left] + changes.items[left..] == changes.items;
    }
  }

  ghost predicate IsStable<R>(logs: seq<Log<R>>, changes: Changes)
    requires logs != []
  {
    changes.to > 0 || |changes.items| <= 1 || forall i :: 0 <= i < |logs| ==> logs[i] == logs[0]
  }

  lemma FirstPage<R>(fold: Fold<R>, log: Log<R>, since: State, changes: Changes, max: nat)
    requires !since.Intermediate? && changes == GetChanges(fold, log, FirstQuery(since))
    ensures OnCourse(changes, since, 1, Received(Client(since, [], false), Answer(fold, log, since, max)))
  {
    assert changes.items[|changes.items|..] == [];
    if !(since == Initial && changes.items == [] && changes.from == 0) {
      PageKeepsCourse(changes, since, 0, Client(since, [], false), max);
    }
  }

  /** One more request. */
  lemma NextPage<R>(fold: Fold<R>, logs: seq<Log<R>>, since: State, changes: Changes, n: nat, client: Client, max: nat)
    requires n < |logs| && !since.Intermediate? && Extends(logs[0], logs[n])
    requires changes == GetChanges(fold, logs[0], FirstQuery(since)) && IsStable(logs, changes)
    requires OnCourse(changes, since, n, client) && !client.done
    ensures OnCourse(changes, since, n + 1, Received(client, Answer(fold, logs[n], client.state, max)))
  {
    if n == 0 {
      FirstPage(fold, logs[0], since, changes, max);
    } else {
      RangeIsStable(fold, logs[0], logs[n], FirstQuery(since));
      PageKeepsCourse(changes, since, n, client, max);
    }
  }

  lemma {:induction false} StaysOnCourse(server: (nat, State) -> Response, changes: Changes, since: State, n: nat)
    requires forall i: nat, client :: i < n && OnCourse(changes, since, i, client) && !client.done ==>
                                        OnCourse(changes, since, i + 1, Received(client, server(i, client.state)))
    ensures OnCourse(changes, since, n, Follow(server, since, n))
    ensures n > 0 && n >= |changes.items| ==> Follow(server, since, n).done
    decreases n
  {
    if n > 0 {
      StaysOnCourse(server, changes, since, n - 1);
    }
  }

  /** Paging is exact: a client that starts from the initial or an exact state receives every
      change of the log as it was at its first request exactly once, after at most as many requests
      as there are changes, and ends in the exact state after them. This holds for all page sizes,
      and while the log grows, provided that the first list has a last id other than 0 or at most
      one change. */
  lemma PagingIsExact<R>(fold: Fold<R>, logs: seq<Log<R>>, maxes: seq<nat>, since: State, n: nat)
    requires n <= |logs| && n <= |maxes| && logs != [] && !since.Intermediate?
    requires forall i :: 0 <= i < |logs| ==> Extends(logs[0], logs[i])
    requires IsStable(logs, GetChanges(fold, logs[0], FirstQuery(since)))
    ensures var changes := GetChanges(fold, logs[0], FirstQuery(since));
            var client := Follow(Server(fold, logs, maxes), since, n);
            OnCourse(changes, since, n, client) && (n > 0 && n >= |changes.items| ==> client.done)
  {
    var changes, server := GetChanges(fold, logs[0], FirstQuery(since)), Server(fold, logs, maxes);
    forall i: nat, client | i < n && OnCourse(changes, since, i, client) && !client.done
      ensures OnCourse(changes, since, i + 1, Received(client, server(i, client.state)))
    {
      NextPage(fold, logs, since, changes, i, client, maxes[i]);
    }
    StaysOnCourse(server, changes, since, n);
  }

  // ----- Coming back later

  lemma IncreasingConcat(a: seq<nat>, b: seq<nat>)
    requires Increasing(a) && Increasing(b) && forall x, y :: x in a && y in b ==> x < y
    ensures Increasing(a + b)
  {
    var c := a + b;
    forall i, j | 0 <= i < j < |c| ensures c[i] < c[j] {
      if i < |a| <= j {
        assert a[i] in a && b[j - |a|] in b;
      }
    }
  }

  /** The last id of a list lies before those that are appended later. */
  lemma LastBound<R>(fold: Fold<R>, log: Log<R>, q: Query, ids: seq<nat>, id: nat)
    requires !q.RangeInclusive? && ids == Ascending(Selected(log, q)) && id in ids
    ensures id <= GetChanges(fold, log, q).to && GetChanges(fold, log, q).to in ids
  {
    FirstAndLast(ids, id);
  }

  /** An id belongs to a request now or to one from where it ends, and not to both. */
  lemma NowOrLater<R>(fold: Fold<R>, log: Log<R>, log': Log<R>, since: State, id: nat)
    requires !since.Intermediate? && Extends(log, log')
    requires var changes := GetChanges(fold, log, FirstQuery(since));
             !(since == Initial && changes.items == [] && changes.from == 0)
    ensures var q, to := FirstQuery(since), GetChanges(fold, log, FirstQuery(since)).to;
            && (id in Selected(log, q) ==> id <= to)
            && (id in log' && IsSelected(q, id) <==> id in Selected(log, q) || (id in log' && id > to))
  {
    var q := FirstQuery(since);
    var ids := Ascending(Selected(log, q));
    if ids != [] {
      LastBound(fold, log, q, ids, ids[0]);
      if id in ids {
        LastBound(fold, log, q, ids, id);
      }
    }
  }

  lemma JoinedAre<R>(log: Log<R>, q: Query, now: seq<nat>, later: seq<nat>, to: nat)
    requires Increasing(now) && Increasing(later)
    requires (forall id :: id in now ==> id <= to) && (forall id :: id in later ==> id > to)
    requires forall id :: id in log && IsSelected(q, id) <==> id in now || id in later
    ensures Ascending(Selected(log, q)) == now + later
  {
    IncreasingConcat(now, later);
    SelectedAre(log, q, now + later);
  }

  /** A client that comes back with the state it ended in misses no record and is told of none twice: the records
      that it gets then follow those that it had, and together they are those of a client that asks only now. */
  lemma SessionsJoin<R>(fold: Fold<R>, log: Log<R>, log': Log<R>, since: State)
    requires !since.Intermediate? && Extends(log, log')
    requires var changes := GetChanges(fold, log, FirstQuery(since));
             !(since == Initial && changes.items == [] && changes.from == 0)
    ensures var q, to := FirstQuery(since), GetChanges(fold, log, FirstQuery(since)).to;
            Ascending(Selected(log', q)) == Ascending(Selected(log, q)) + Ascending(Selected(log', Since(to)))
  {
    var q, to := FirstQuery(since), GetChanges(fold, log, FirstQuery(since)).to;
    var now, later := Ascending(Selected(log, q)), Ascending(Selected(log', Since(to)));
    forall id
      ensures id in now ==> id <= to
      ensures id in log' && IsSelected(q, id) <==> id in now || id in later
    {
      NowOrLater(fold, log, log', since, id);
    }
    JoinedAre(log', q, now, later, to);
  }

  /** How many changes of a list have been sent after `n` pages of the given sizes, where 0 stands for "no limit". */
  function Sent(maxes: seq<nat>, total: nat, n: nat): (sent: nat)
    requires n <= |maxes|
    ensures sent <= total
  {
    if n == 0 then 0
    else
      var sent := Sent(maxes, total, n - 1);
      if 0 < maxes[n - 1] < total - sent then sent + maxes[n - 1] else total
  }

  /** Every answer on course is a page of the first list. */
  lemma AnswerIsPage<R>(fold: Fold<R>, logs: seq<Log<R>>, since: State, changes: Changes, n: nat, client: Client,
                        max: nat)
    requires n < |logs| && !since.Intermediate? && Extends(logs[0], logs[n])
    requires changes == GetChanges(fold, logs[0], FirstQuery(since)) && IsStable(logs, changes)
    requires OnCourse(changes, since, n, client) && !client.done
    ensures |client.items| <= |changes.items|
    ensures Answer(fold, logs[n], client.state, max).items == PageOf(changes, |client.items|, max).items
  {
    if n > 0 {
      RangeIsStable(fold, logs[0], logs[n], FirstQuery(since));
    }
  }

  /** The client is on course and has as many changes as the page sizes say. */
  ghost predicate Counted(changes: Changes, since: State, maxes: seq<nat>, n: nat, client: Client) {
    n <= |maxes| && OnCourse(changes, since, n, client) && |client.items| == Sent(maxes, |changes.items|, n)
  }

  lemma OneMorePage<R>(fold: Fold<R>, logs: seq<Log<R>>, maxes: seq<nat>, since: State, changes: Changes, n: nat,
                       client: Client)
    requires n < |logs| && n < |maxes| && !since.Intermediate? && Extends(logs[0], logs[n])
    requires changes == GetChanges(fold, logs[0], FirstQuery(since)) && IsStable(logs, changes)
    requires Counted(changes, since, maxes, n, client) && !client.done
    ensures Counted(changes, since, maxes, n + 1, Received(client, Answer(fold, logs[n], client.state, maxes[n])))
  {
    AnswerIsPage(fold, logs, since, changes, n, client, maxes[n]);
    NextPage(fold, logs, since, changes, n, client, maxes[n]);
  }

  lemma NoMorePages(changes: Changes, since: State, maxes: seq<nat>, n: nat, client: Client)
    requires n < |maxes| && Counted(changes, since, maxes, n, client) && client.done
    ensures Counted(changes, since, maxes, n + 1, client)
  {
  }

  lemma {:induction false} StaysCounted(server: (nat, State) -> Response, changes: Changes, since: State,
                                        maxes: seq<nat>, n: nat)
    requires n <= |maxes|
    requires forall i: nat, client ::
               i < n && Counted(changes, since, maxes, i, client) && !client.done ==>
                 Counted(changes, since, maxes, i + 1, Received(client, server(i, client.state)))
    ensures Counted(changes, since, maxes, n, Follow(server, since, n))
    decreases n
  {
    if n > 0 {
      StaysCounted(server, changes, since, maxes, n - 1);
      var client := Follow(server, since, n - 1);
      if client.done {
        NoMorePages(changes, since, maxes, n - 1, client);
      }
    }
  }

  /** Which changes the client has after `n` requests is settled by the page sizes. */
  lemma PageSizes<R>(fold: Fold<R>, logs: seq<Log<R>>, maxes: seq<nat>, since: State, n: nat)
    requires n <= |logs| && n <= |maxes| && logs != [] && !since.Intermediate?
    requires forall i :: 0 <= i < |logs| ==> Extends(logs[0], logs[i])
    requires IsStable(logs, GetChanges(fold, logs[0], FirstQuery(since)))
    ensures var items := GetChanges(fold, logs[0], FirstQuery(since)).items;
            Follow(Server(fold, logs, maxes), since, n).items == items[|items| - Sent(maxes, |items|, n)..]
  {
    var changes, server := GetChanges(fold, logs[0], FirstQuery(since)), Server(fold, logs, maxes);
    forall i: nat, client | i < n && Counted(changes, since, maxes, i, client) && !client.done
      ensures Counted(changes, since, maxes, i + 1, Received(client, server(i, client.state)))
    {
      OneMorePage(fold, logs, maxes, since, changes, i, client);
    }
    StaysCounted(server, changes, since, maxes, n);
    CountedIsEnd(changes, since, maxes, n, Follow(server, since, n));
  }

  lemma CountedIsEnd(changes: Changes, since: State, maxes: seq<nat>, n: nat, client: Client)
    requires Counted(changes, since, maxes, n, client)
    ensures var items := changes.items; client.items == items[|items| - Sent(maxes, |items|, n)..]
  {
  }

  /** The last of two or more changes is the first page of size one. */
  lemma FirstSmallPage(items: seq<Item>, from: nat, to: nat)
    requires |items| >= 2
    ensures PageOf(Changes(items, from, to), 0, 1) == Response([items[|items| - 1]], true, Intermediate(from, to, 1))
  {
  }

  /** It is the second page as well if one more change was appended in between. */
  lemma SecondSmallPage(items: seq<Item>, x: Item, from: nat, to: nat)
    requires |items| >= 2
    ensures PageOf(Changes(items + [x], from, to), 1, 1).items == [items[|items| - 1]]
  {
  }

  lemma OneRecord<R>(fold: Fold<R>, r: R)
    ensures GetChanges(fold, map[0 := r], All) == Changes(fold([], r), 0, 0)
  {
    var log := map[0 := r];
    assert FoldIds(fold, log, [0], 0) == [];
    ReadBy(fold, log, All, [0], Changes(fold([], r), 0, 0));
  }

  lemma TwoRecords<R>(fold: Fold<R>, r: R, r': R)
    ensures GetChanges(fold, map[0 := r, 1 := r'], RangeInclusive(0, 0)) == Changes(fold(fold([], r), r'), 0, 1)
  {
    var log := map[0 := r, 1 := r'];
    assert FoldIds(fold, log, [0, 1], 0) == [];
    assert FoldIds(fold, log, [0, 1], 1) == fold([], r);
    ReadBy(fold, log, RangeInclusive(0, 0), [0, 1], Changes(fold(fold([], r), r'), 0, 1));
  }

  lemma TwoRequests(server: (nat, State) -> Response, r: Response, r': Response)
    requires server(0, Initial) == r && r.hasMore && server(1, r.newState) == r'
    ensures Follow(server, Initial, 2).items == r'.items + r.items
  {
    assert Follow(server, Initial, 0) == Client(Initial, [], false);
    assert r.items + [] == r.items;
    assert Follow(server, Initial, 1) == Client(r.newState, r.items, false);
  }

  lemma FirstAnswer<R>(fold: Fold<R>, r: R, items: seq<Item>)
    requires fold([], r) == items && |items| >= 2
    ensures Answer(fold, map[0 := r], Initial, 1) == Response([items[|items| - 1]], true, Intermediate(0, 0, 1))
  {
    OneRecord(fold, r);
    FirstSmallPage(items, 0, 0);
  }

  lemma SecondAnswer<R>(fold: Fold<R>, r: R, r': R, items: seq<Item>, x: Item)
    requires fold([], r) == items && fold(items, r') == items + [x] && |items| >= 2
    ensures Answer(fold, map[0 := r, 1 := r'], Intermediate(0, 0, 1), 1).items == [items[|items| - 1]]
  {
    TwoRecords(fold, r, r');
    SecondSmallPage(items, x, 0, 1);
  }

  lemma SamePageTwice<R>(fold: Fold<R>, log: Log<R>, log': Log<R>, last: Item)
    requires Answer(fold, log, Initial, 1) == Response([last], true, Intermediate(0, 0, 1))
    requires Answer(fold, log', Intermediate(0, 0, 1), 1).items == [last]
    ensures Follow(Server(fold, [log, log'], [1, 1]), Initial, 2).items == [last, last]
  {
    var r, r' := Answer(fold, log, Initial, 1), Answer(fold, log', Intermediate(0, 0, 1), 1);
    TwoRequests(Server(fold, [log, log'], [1, 1]), r, r');
    assert r'.items + r.items == [last, last];
  }

  /** The proviso is needed: 0 as last id of a range means no limit. With a single record under id 0
      that amounts to two or more changes, a client that asks for them one by one receives the last
      of them twice if a second record is appended meanwhile that adds a change. */
  lemma ZeroRangeBreaks<R>(fold: Fold<R>, r: R, r': R, items: seq<Item>, x: Item)
    requires fold([], r) == items && fold(items, r') == items + [x] && |items| >= 2
    ensures var log, log' := map[0 := r], map[0 := r, 1 := r'];
            var last := items[|items| - 1];
            && Extends(log, log')
            && Follow(Server(fold, [log, log'], [1, 1]), Initial, 2).items == [last, last]
  {
    FirstAnswer(fold, r, items);
    SecondAnswer(fold, r, r', items, x);
    SamePageTwice(fold, map[0 := r], map[0 := r, 1 := r'], items[|items| - 1]);
  }
}

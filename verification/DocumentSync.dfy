/** Fetching documents from the leader and applying them: the answer to a requested change set,
    the meaning of the document updates on the follower's store, and the convergence theorem. */
module DocumentSync {
  import opened Common
  import opened KeyOrder
  import opened ChangeLog

  datatype DocUpdate = Insert(id: DocId, doc: Doc) | Update(id: DocId, doc: Doc) | Delete(id: DocId)

  // ----- The leader's answer

  datatype Request = Request(id: DocId, isInsert: bool)

  /** The requested documents in the order the leader visits them: inserts before updates, each
      by ascending id. */
  function Requests(m: Merged): seq<Request>
    decreases |m.inserts| + |m.updates|
  {
    if m.inserts != {} then
      var d := Least(m.inserts);
      [Request(d, true)] + Requests(m.(inserts := m.inserts - {d}))
    else if m.updates != {} then
      var d := Least(m.updates);
      [Request(d, false)] + Requests(m.(updates := m.updates - {d}))
    else []
  }

  function Item(leader: Table, r: Request, isRollback: bool): seq<DocUpdate> {
    if r.id in leader then
      [if r.isInsert then Insert(r.id, leader[r.id]) else Update(r.id, leader[r.id])]
    else if isRollback then [Delete(r.id)]
    else []
  }

  /** The answer to the first `n` requests. */
  function Items(leader: Table, rs: seq<Request>, n: nat, isRollback: bool): seq<DocUpdate>
    requires n <= |rs|
  {
    if n == 0 then [] else Items(leader, rs, n - 1, isRollback) + Item(leader, rs[n - 1], isRollback)
  }

  /** Serialized fields and the eight bytes of the JMAP id. */
  function ItemSize(leader: Table, r: Request): nat {
    if r.id in leader then |leader[r.id].fields| + 8 else 0
  }

  function SizeOf(leader: Table, rs: seq<Request>, n: nat): nat
    requires n <= |rs|
  {
    if n == 0 then 0 else SizeOf(leader, rs, n - 1) + ItemSize(leader, rs[n - 1])
  }

  /** What an update takes up in a batch. */
  function UpdateBytes(u: DocUpdate): nat {
    if u.Delete? then 0 else |u.doc.fields| + 8
  }

  function BatchBytes(us: seq<DocUpdate>): nat {
    if us == [] then 0 else BatchBytes(us[..|us| - 1]) + UpdateBytes(us[|us| - 1])
  }

  lemma BytesOfItem(us: seq<DocUpdate>, leader: Table, r: Request, isRollback: bool)
    ensures BatchBytes(us + Item(leader, r, isRollback)) == BatchBytes(us) + ItemSize(leader, r)
  {
    var item := Item(leader, r, isRollback);
    if item == [] {
      assert us + item == us;
    } else {
      assert (us + item)[..|us|] == us;
    }
  }

  /** The size counted for some requests is that of the answer. */
  lemma {:induction false} SizeIsBytes(leader: Table, rs: seq<Request>, n: nat, isRollback: bool)
    requires n <= |rs|
    ensures SizeOf(leader, rs, n) == BatchBytes(Items(leader, rs, n, isRollback))
    decreases n
  {
    if n > 0 {
      SizeIsBytes(leader, rs, n - 1, isRollback);
      BytesOfItem(Items(leader, rs, n - 1, isRollback), leader, rs[n - 1], isRollback);
    }
  }

  /** Inserts come before updates, and smaller ids before larger ones. */
  predicate Precedes(a: Request, b: Request) {
    if a.isInsert == b.isInsert then a.id < b.id else a.isInsert
  }

  lemma {:induction false} RequestsInOrder(m: Merged, i: nat, j: nat)
    requires i < j < |Requests(m)|
    ensures Precedes(Requests(m)[i], Requests(m)[j])
    decreases |m.inserts| + |m.updates|
  {
    var rest := if m.inserts != {} then m.(inserts := m.inserts - {Least(m.inserts)})
                else m.(updates := m.updates - {Least(m.updates)});
    assert Requests(m)[1..] == Requests(rest);
    if i == 0 {
      RequestsMembers(rest);
      assert Requests(m)[j] == Requests(rest)[j - 1] && Requests(rest)[j - 1] in Requests(rest);
    } else {
      RequestsInOrder(rest, i - 1, j - 1);
    }
  }

  /** Takes the smallest requested insert, or the smallest requested update if there is none. */
  method PopRequest(changes: MergedChanges) returns (r: Request)
    requires changes.inserts != {} || changes.updates != {}
    modifies changes
    ensures old(Requests(changes.View())) == [r] + Requests(changes.View())
    ensures changes.deletes == old(changes.deletes)
  {
    if changes.inserts != {} {
      r := Request(Least(changes.inserts), true);
      changes.inserts := changes.inserts - {r.id};
    } else {
      r := Request(Least(changes.updates), false);
      changes.updates := changes.updates - {r.id};
    }
  }

  /** Serves documents until the requested set is used up or the batch limit is reached; `served`
      counts the requests looked at. Whatever is left stays in `changes`. */
  method PrepareChanges(leader: Table, changes: MergedChanges, isRollback: bool, maxBatchSize: nat)
    returns (updates: seq<DocUpdate>, served: nat)
    modifies changes
    ensures served <= |old(Requests(changes.View()))|
    ensures var rs := old(Requests(changes.View()));
            && updates == Items(leader, rs, served, isRollback)
            && Requests(changes.View()) == rs[served..]
            && (rs != [] ==> served > 0)
            && (served < |rs| ==> BatchBytes(updates) >= maxBatchSize && SizeOf(leader, rs, served) >= maxBatchSize)
            && (forall k :: 0 < k < served ==> SizeOf(leader, rs, k) < maxBatchSize)
    ensures changes.deletes == old(changes.deletes)
  {
    ghost var rs := Requests(changes.View());
    ghost var todo := rs;
    var batchSize := 0;
    updates, served := [], 0;
    while changes.inserts != {} || changes.updates != {}
      invariant served <= |rs|
      invariant todo == Requests(changes.View()) == rs[served..]
      invariant updates == Items(leader, rs, served, isRollback)
      invariant batchSize == SizeOf(leader, rs, served)
      invariant forall k :: 0 < k <= served ==> SizeOf(leader, rs, k) < maxBatchSize
      invariant changes.deletes == old(changes.deletes)
      decreases |todo|
    {
      var request := PopRequest(changes);
      todo := Requests(changes.View());
      assert rs[served] == rs[served..][0] == request;
      assert rs[served + 1..] == rs[served..][1..] == todo;
      batchSize := batchSize + ItemSize(leader, request);
      updates := updates + Item(leader, request, isRollback);
      served := served + 1;
      assert batchSize == SizeOf(leader, rs, served);
      if batchSize >= maxBatchSize {
        break;
      }
    }
    SizeIsBytes(leader, rs, served, isRollback);
  }

  lemma {:induction false} RequestsMembers(m: Merged)
    ensures forall r :: r in Requests(m) <==> r.id in (if r.isInsert then m.inserts else m.updates)
    decreases |m.inserts| + |m.updates|
  {
    if m.inserts != {} {
      RequestsMembers(m.(inserts := m.inserts - {Least(m.inserts)}));
    } else if m.updates != {} {
      RequestsMembers(m.(updates := m.updates - {Least(m.updates)}));
    }
  }

  /** An answer is complete exactly if all requests but the last stay below the batch limit. */
  lemma AnswerComplete(leader: Table, rs: seq<Request>, served: nat, maxBatchSize: nat)
    requires served <= |rs| && (rs != [] ==> served > 0)
    requires served < |rs| ==> SizeOf(leader, rs, served) >= maxBatchSize
    requires forall k :: 0 < k < served ==> SizeOf(leader, rs, k) < maxBatchSize
    ensures served == |rs| <==> |rs| <= 1 || SizeOf(leader, rs, |rs| - 1) < maxBatchSize
  {
    if served < |rs| {
      SizeGrows(leader, rs, served, |rs| - 1);
    }
  }

  /** A document that fills a batch on its own, ahead of a second one that is then never sent. */
  lemma CutAnswer() returns (leader: Table, m: Merged, maxBatchSize: nat)
    ensures |Requests(m)| == 2 && SizeOf(leader, Requests(m), 1) >= maxBatchSize
    ensures forall r :: r in Requests(m) ==> r.id in leader
  {
    leader, m, maxBatchSize := map[1 := Doc(0, []), 2 := Doc(0, [])], Merged({1, 2}, {}, {}), 8;
    RequestsMembers(m);
    var d := Least(m.inserts);
    var rest := m.inserts - {d};
    assert rest != {} by { assert 1 in rest || 2 in rest; }
    assert rest - {Least(rest)} == {};
    assert Requests(m) == [Request(d, true), Request(Least(rest), true)];
  }

  lemma {:induction false} SizeGrows(leader: Table, rs: seq<Request>, i: nat, j: nat)
    requires i <= j <= |rs|
    ensures SizeOf(leader, rs, i) <= SizeOf(leader, rs, j)
    decreases j
  {
    if i < j {
      SizeGrows(leader, rs, i, j - 1);
    }
  }

  // ----- Applying updates on the follower

  /** Adds one update to a write batch over the stored table `t0`. Removing a document that is not
      stored is reported by every collection but e-mail, and the report is then ignored. */
  function WriteDoc(t0: Table, t: Table, u: DocUpdate, isMail: bool): Table {
    match u
    case Insert(id, doc) => t[id := doc]
    case Update(id, doc) => t[id := doc]
    case Delete(id) => if id in t0 || isMail then t - {id} else t
  }

  function WriteBatch(t0: Table, us: seq<DocUpdate>, isMail: bool): Table {
    if us == [] then t0 else WriteDoc(t0, WriteBatch(t0, us[..|us| - 1], isMail), us[|us| - 1], isMail)
  }

  predicate Acceptable(t0: Table, us: seq<DocUpdate>) {
    forall i :: 0 <= i < |us| && us[i].Update? ==> us[i].id in t0
  }

  /** A batch of updates reads the documents to update from the store, not from the batch, so it
      fails as a whole if one of them is not stored yet. */
  function ApplyUpdates(t0: Table, us: seq<DocUpdate>, isMail: bool): Result<Table> {
    if Acceptable(t0, us) then Ok(WriteBatch(t0, us, isMail)) else Err(NotFound)
  }

  /** What a requested document looks like after an answer was applied to `t0`. */
  function Answered(t0: Table, leader: Table, d: DocId, isRollback: bool): Lookup {
    if d in leader then Present(leader[d]) else if isRollback then Absent else Get(t0, d)
  }

  predicate Asked(rs: seq<Request>, n: nat, d: DocId)
    requires n <= |rs|
  {
    exists i :: 0 <= i < n && rs[i].id == d
  }

  lemma BatchSnoc(t0: Table, us: seq<DocUpdate>, u: DocUpdate, isMail: bool)
    ensures WriteBatch(t0, us + [u], isMail) == WriteDoc(t0, WriteBatch(t0, us, isMail), u, isMail)
  {
    assert (us + [u])[..|us|] == us;
  }

  /** One more answer in a batch. */
  lemma BatchOfItem(t0: Table, leader: Table, us: seq<DocUpdate>, r: Request, isRollback: bool, isMail: bool, d: DocId)
    ensures Get(WriteBatch(t0, us + Item(leader, r, isRollback), isMail), d) ==
            if r.id == d && (d in leader || (isRollback && (d in t0 || isMail)))
            then Answered(t0, leader, d, isRollback)
            else Get(WriteBatch(t0, us, isMail), d)
  {
    var item := Item(leader, r, isRollback);
    if item == [] {
      assert us + item == us;
    } else {
      BatchSnoc(t0, us, item[0], isMail);
    }
  }

  lemma {:induction false} BatchOfItems(t0: Table, leader: Table, rs: seq<Request>, n: nat, isRollback: bool,
                                        isMail: bool, d: DocId)
    requires n <= |rs|
    ensures Get(WriteBatch(t0, Items(leader, rs, n, isRollback), isMail), d) ==
            if Asked(rs, n, d) then Answered(t0, leader, d, isRollback) else Get(t0, d)
    decreases n
  {
    if n > 0 {
      BatchOfItems(t0, leader, rs, n - 1, isRollback, isMail, d);
      BatchOfItem(t0, leader, Items(leader, rs, n - 1, isRollback), rs[n - 1], isRollback, isMail, d);
      assert Asked(rs, n, d) <==> Asked(rs, n - 1, d) || rs[n - 1].id == d;
    }
  }

  lemma {:induction false} AcceptableItems(t0: Table, leader: Table, rs: seq<Request>, n: nat, isRollback: bool)
    requires n <= |rs|
    ensures Acceptable(t0, Items(leader, rs, n, isRollback)) <==>
            forall i :: 0 <= i < n && !rs[i].isInsert && rs[i].id in leader ==> rs[i].id in t0
    decreases n
  {
    if n > 0 {
      AcceptableItems(t0, leader, rs, n - 1, isRollback);
      var us, item := Items(leader, rs, n - 1, isRollback), Item(leader, rs[n - 1], isRollback);
      if item != [] {
        assert (us + item)[|us|] == item[0];
        assert forall i :: 0 <= i < |us| ==> (us + item)[i] == us[i];
      } else {
        assert us + item == us;
      }
    }
  }

  /** The follower's table after it applied the leader's complete answer to a requested set. */
  function Fetch(t0: Table, leader: Table, m: Merged, isRollback: bool, isMail: bool): Result<Table> {
    var rs := Requests(m);
    ApplyUpdates(t0, Items(leader, rs, |rs|, isRollback), isMail)
  }

  ghost predicate Fetched(t0: Table, leader: Table, m: Merged, isRollback: bool, t: Table) {
    forall d :: Get(t, d) == if d in m.inserts + m.updates then Answered(t0, leader, d, isRollback) else Get(t0, d)
  }

  lemma FetchEffect(t0: Table, leader: Table, m: Merged, isRollback: bool, isMail: bool)
    ensures var r := Fetch(t0, leader, m, isRollback, isMail);
            && (r.Ok? <==> m.updates * leader.Keys <= t0.Keys)
            && (r.Ok? ==> Fetched(t0, leader, m, isRollback, r.value))
  {
    var rs := Requests(m);
    RequestsMembers(m);
    AcceptableItems(t0, leader, rs, |rs|, isRollback);
    var t := WriteBatch(t0, Items(leader, rs, |rs|, isRollback), isMail);
    forall d
      ensures Get(t, d) == if d in m.inserts + m.updates then Answered(t0, leader, d, isRollback) else Get(t0, d)
    {
      BatchOfItems(t0, leader, rs, |rs|, isRollback, isMail, d);
      if d in m.inserts { assert Request(d, true) in rs; }
      if d in m.updates { assert Request(d, false) in rs; }
    }
    if Acceptable(t0, Items(leader, rs, |rs|, isRollback)) {
      forall d | d in m.updates * leader.Keys ensures d in t0 {
        assert Request(d, false) in rs;
      }
    }
  }

  // ----- Rolling back and catching up one table

  /** Undoes a divergent suffix, given as its folded bitmaps `m`: deletes what it inserted, then
      fetches what it updated or deleted, the deletes as inserts. */
  function Rollback(t: Table, m: Merged, leader: Table, isMail: bool): Result<Table> {
    if m.inserts <= t.Keys || isMail then
      Fetch(t - m.inserts, leader, Merged(m.deletes, m.updates, {}), true, isMail)
    else Err(NotFound)
  }

  /** Applies one round of the leader's log, given as its folded bitmaps `m`: first the deletes,
      then the fetched inserts and updates. */
  function CatchUp(t: Table, m: Merged, leader: Table, isMail: bool): Result<Table> {
    Fetch(t - m.deletes, leader, Merged(m.inserts, m.updates, {}), false, isMail)
  }

  function CatchUpAll(t: Table, rounds: seq<seq<Change>>, leader: Table, isMail: bool): Result<Table>
    decreases |rounds|
  {
    if rounds == [] then Ok(t)
    else
      var t' :- CatchUp(t, Merge(rounds[0]), leader, isMail);
      CatchUpAll(t', rounds[1..], leader, isMail)
  }

  /** Rolling back succeeds exactly if the leader has no document under an id that the suffix
      inserted and updated in one record. */
  lemma RollbackEffect(h: seq<Table>, cs: seq<Change>, leader: Table, isMail: bool)
    requires History(h, cs)
    ensures var m, r := Merge(cs), Rollback(h[|cs|], Merge(cs), leader, isMail);
            && (r.Ok? <==> BornUpdated(cs) !! leader.Keys)
            && (r.Ok? ==> forall d :: Get(r.value, d) == (if d in m.deletes + m.updates then Get(leader, d)
                                                          else if d in m.inserts then Absent
                                                          else Get(h[0], d)))
  {
    MergeNetEffect(h, cs);
    var m, t := Merge(cs), h[|cs|];
    FetchEffect(t - m.inserts, leader, Merged(m.deletes, m.updates, {}), true, isMail);
  }

  /** `t` is as good as the leader's state at the start of the log records `rest`, although some
      of its documents may already be as the leader has them after those records. */
  ghost predicate Tracks(t: Table, state: Table, rest: seq<Change>, leader: Table) {
    && t.Keys <= state.Keys
    && state.Keys * leader.Keys <= t.Keys
    && forall d :: d !in TouchedBy(rest) ==> Get(t, d) == Get(leader, d)
  }

  lemma {:induction false} Untouched(h: seq<Table>, cs: seq<Change>, d: DocId)
    requires History(h, cs) && d !in TouchedBy(cs)
    ensures Get(h[0], d) == Get(h[|cs|], d)
    decreases |cs|
  {
    if cs != [] {
      var n := |cs| - 1;
      assert cs == cs[..n] + [cs[n]];
      TouchedBySnoc(cs[..n], cs[n]);
      Untouched(h[..n + 1], cs[..n], d);
    }
  }

  lemma TouchedByConcat(cs: seq<Change>, rest: seq<Change>)
    ensures TouchedBy(cs + rest) == TouchedBy(cs) + TouchedBy(rest)
  {
    var all := cs + rest;
    assert forall c :: c in all <==> c in cs || c in rest;
    forall d | d in TouchedBy(cs) + TouchedBy(rest) ensures d in TouchedBy(all) {
      var c :| (c in cs || c in rest) && d in Touched(c);
      assert c in all;
    }
  }

  lemma RollbackTracks(hf: seq<Table>, fs: seq<Change>, hl: seq<Table>, ls: seq<Change>, isMail: bool)
    requires History(hf, fs) && History(hl, ls) && hf[0] == hl[0]
    requires BornUpdated(fs) !! hl[|ls|].Keys
    ensures var r := Rollback(hf[|fs|], Merge(fs), hl[|ls|], isMail);
            r.Ok? && Tracks(r.value, hl[0], ls, hl[|ls|])
  {
    var base, leader, m := hl[0], hl[|ls|], Merge(fs);
    RollbackEffect(hf, fs, leader, isMail);
    MergeNetEffect(hf, fs);
    var r := Rollback(hf[|fs|], m, leader, isMail).value;
    forall d ensures d in r ==> d in base
             ensures d in base && d in leader ==> d in r
    {
      assert Get(r, d) == if d in m.deletes + m.updates then Get(leader, d)
                          else if d in m.inserts then Absent
                          else Get(base, d);
    }
    forall d | d !in TouchedBy(ls) ensures Get(r, d) == Get(leader, d) {
      Untouched(hl, ls, d);
    }
  }

  lemma CatchUpAccepted(t: Table, s: Table, m: Merged, u: Table, leader: Table)
    requires NetEffect(s, m, u)
    requires t.Keys <= s.Keys && s.Keys * leader.Keys <= t.Keys
    ensures m.updates * leader.Keys <= (t - m.deletes).Keys <==> m.updates * m.inserts !! leader.Keys
  {
    assert (t - m.deletes).Keys == t.Keys - m.deletes;
    if m.updates * m.inserts !! leader.Keys {
      forall d | d in m.updates * leader.Keys ensures d in t.Keys - m.deletes {
        assert d in m.updates - m.inserts;
      }
    } else {
      var d :| d in m.updates * m.inserts && d in leader.Keys;
      assert d in m.inserts && (d in s.Keys ==> d in m.inserts * s.Keys);
      assert d in m.updates * leader.Keys && d !in t.Keys - m.deletes;
    }
  }

  /** One document after a round, from the net effect of the round alone. */
  lemma CatchUpOne(t: Table, s: Table, m: Merged, touched: set<DocId>, u: Table, leader: Table, r: Table, d: DocId)
    requires NetEffect(s, m, u) && Transient(s, m, touched, u)
    requires t.Keys <= s.Keys && s.Keys * leader.Keys <= t.Keys
    requires Get(r, d) ==
             if d in m.inserts + m.updates then Answered(t - m.deletes, leader, d, false) else Get(t - m.deletes, d)
    ensures d in r ==> d in u
    ensures d in u && d in leader ==> d in r
    ensures Get(u, d) == Get(leader, d) && (d !in touched ==> Get(t, d) == Get(leader, d)) ==>
            Get(r, d) == Get(leader, d)
  {
  }

  lemma CatchUpTracks(t: Table, h: seq<Table>, round: seq<Change>, rest: seq<Change>, leader: Table, isMail: bool)
    requires History(h, round)
    requires Tracks(t, h[0], round + rest, leader)
    requires forall d :: d !in TouchedBy(rest) ==> Get(h[|round|], d) == Get(leader, d)
    ensures var r := CatchUp(t, Merge(round), leader, isMail);
            && (r.Ok? <==> BornUpdated(round) !! leader.Keys)
            && (r.Ok? ==> Tracks(r.value, h[|round|], rest, leader))
  {
    MergeNetEffect(h, round);
    var m, state := Merge(round), h[|round|];
    TouchedByConcat(round, rest);
    var m' := Merged(m.inserts, m.updates, {});
    FetchEffect(t - m.deletes, leader, m', false, isMail);
    CatchUpAccepted(t, h[0], m, state, leader);
    var r := CatchUp(t, m, leader, isMail);
    if r.Ok? {
      assert Fetched(t - m.deletes, leader, m', false, r.value);
      forall d
        ensures d in r.value ==> d in state
        ensures d in state && d in leader ==> d in r.value
        ensures d !in TouchedBy(rest) ==> Get(r.value, d) == Get(leader, d)
      {
        CatchUpOne(t, h[0], m, TouchedBy(round), state, leader, r.value, d);
      }
    }
  }

  function Flatten(rounds: seq<seq<Change>>): seq<Change> {
    if rounds == [] then [] else rounds[0] + Flatten(rounds[1..])
  }

  lemma {:induction false} CatchUpAllTracks(t: Table, h: seq<Table>, rounds: seq<seq<Change>>, isMail: bool)
    requires History(h, Flatten(rounds))
    requires Tracks(t, h[0], Flatten(rounds), h[|h| - 1])
    ensures CatchUpAll(t, rounds, h[|h| - 1], isMail).Ok? <==>
            forall i :: 0 <= i < |rounds| ==> BornUpdated(rounds[i]) !! h[|h| - 1].Keys
    ensures CatchUpAll(t, rounds, h[|h| - 1], isMail).Ok? ==>
            CatchUpAll(t, rounds, h[|h| - 1], isMail).value == h[|h| - 1]
    decreases |rounds|
  {
    var leader := h[|h| - 1];
    if rounds == [] {
      assert forall d :: Get(t, d) == Get(leader, d);
      SameTable(t, leader);
    } else {
      var round, rest := rounds[0], Flatten(rounds[1..]);
      var cs := Flatten(rounds);
      var n := |round|;
      assert cs[..n] == round && cs[n..] == rest;
      forall d | d !in TouchedBy(rest) ensures Get(h[n], d) == Get(leader, d) {
        Untouched(h[n..], rest, d);
      }
      CatchUpTracks(t, h[..n + 1], round, rest, leader, isMail);
      var r := CatchUp(t, Merge(round), leader, isMail);
      if r.Ok? {
        CatchUpAllTracks(r.value, h[n..], rounds[1..], isMail);
        assert forall i :: 0 < i < |rounds| ==> rounds[i] == rounds[1..][i - 1];
      }
    }
  }

  lemma SameTable(t: Table, u: Table)
    requires forall d :: Get(t, d) == Get(u, d)
    ensures t == u
  {
    assert forall d :: d in t <==> Get(t, d).Present?;
    assert forall d :: d in t ==> Get(t, d) == Present(t[d]);
  }

  /** Convergence: for every common base, every divergent suffix `fs` of the follower and every
      suffix of the leader, cut into any rounds, rolling back and then catching up round by round
      succeeds exactly if the leader has no document under an id that one record of either suffix
      inserted and updated, and then the follower holds the leader's documents. */
  lemma Convergence(hf: seq<Table>, fs: seq<Change>, hl: seq<Table>, rounds: seq<seq<Change>>, isMail: bool)
    requires History(hf, fs) && History(hl, Flatten(rounds)) && hf[0] == hl[0]
    ensures
      var leader := hl[|hl| - 1];
      var back := Rollback(hf[|fs|], Merge(fs), leader, isMail);
      && (back.Ok? <==> BornUpdated(fs) !! leader.Keys)
      && (back.Ok? ==>
            var r := CatchUpAll(back.value, rounds, leader, isMail);
            && (r.Ok? <==> forall i :: 0 <= i < |rounds| ==> BornUpdated(rounds[i]) !! leader.Keys)
            && (r.Ok? ==> r.value == leader))
  {
    var leader := hl[|hl| - 1];
    RollbackEffect(hf, fs, leader, isMail);
    if BornUpdated(fs) !! leader.Keys {
      RollbackTracks(hf, fs, hl, Flatten(rounds), isMail);
      CatchUpAllTracks(Rollback(hf[|fs|], Merge(fs), leader, isMail).value, hl, rounds, isMail);
    }
  }

  /** A leader's suffix that no follower can catch up with: one record inserts and updates a document. */
  lemma BornUpdatedFails(isMail: bool) returns (h: seq<Table>, round: seq<Change>)
    ensures History(h, round) && CatchUpAll(h[0], [round], h[|h| - 1], isMail).Err?
  {
    var id := JmapId(0, 1);
    var c := Entry([id], [id], [], []);
    h, round := [map[], map[1 := Doc(0, [])]], [c];
    assert Flatten([round]) == round + Flatten([]) == round;
    assert id in c.inserts && id in c.updates;
    assert Docs(c.inserts) == {1} && Docs(c.updates) == {1};
    assert round[..0] == [] && 1 in BornUpdated(round);
    CatchUpAllTracks(h[0], h, [round], isMail);
  }
}

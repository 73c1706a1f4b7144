/** Leader and follower together: a whole exchange, from rolling back the follower's divergent
    suffix to committing the leader's log. */
module Exchange {
  import opened Common
  import opened KeyOrder
  import opened ChangeLog
  import opened DocumentSync
  import opened LogStore
  import opened LogShipping
  import opened Replica
  import opened FollowerCommit
  import opened FollowerProcess
  import opened UndoLog
  import opened Rounds

  // ----- Rolling back with the leader's help

  function RollbackRequest(m: Merged): Merged {
    Merged(m.deletes, m.updates, {})
  }

  lemma SomethingRequested(m: Merged)
    requires m.inserts != {} || m.updates != {}
    ensures Requests(m) != []
  {
  }

  /** The leader's answer to a rollback request: deleted documents are restored as inserts. */
  method AnswerRollback(leader: Tables, slot: Slot, changes: Merged, maxBatchSize: nat) returns (answer: Answer)
    requires changes.inserts == {} && (changes.updates != {} || changes.deletes != {})
    ensures answer.Documents? && answer.eof
    ensures var m := RollbackRequest(changes);
            Fits(TableOf(leader, slot), m, maxBatchSize) ==>
              answer.updates == Items(TableOf(leader, slot), Requests(m), |Requests(m)|, true)
  {
    var request := new MergedChanges(changes);
    if request.deletes != {} {
      request.inserts, request.deletes := request.deletes, {};
    }
    assert request.View() == RollbackRequest(changes);
    ghost var rs := Requests(request.View());
    var updates, served := PrepareChanges(TableOf(leader, slot), request, true, maxBatchSize);
    AnswerComplete(TableOf(leader, slot), rs, served, maxBatchSize);
    SomethingRequested(RollbackRequest(changes));
    answer := if served == 0 then NoAnswer else Documents(updates, true);
  }

  /** What rolling back makes of a slot, threads having no documents. */
  function RolledBack(t: Table, m: Merged, leader: Table, s: Slot): Result<Table> {
    if s.collection == THREAD then Ok(t) else Rollback(t, m, leader, s.collection == MAIL)
  }

  lemma SimpleRollback(t: Table, m: Merged, leader: Table, s: Slot)
    requires IsSimple(s, m)
    ensures RolledBack(t, m, leader, s) == DeleteInserts(t, m.inserts, s)
  {
    if s.collection != THREAD {
      assert Requests(Merged(m.deletes, m.updates, {})) == [];
      assert t - {} == t;
      assert WriteBatch(t - m.inserts, [], s.collection == MAIL) == t - m.inserts;
    }
  }

  lemma FetchedRollback(t: Table, m: Merged, leader: Table, s: Slot, t1: Table)
    requires s.collection != THREAD && DeleteInserts(t, m.inserts, s) == Ok(t1)
    ensures var rs := Requests(RollbackRequest(m));
            RolledBack(t, m, leader, s) == ApplyUpdates(t1, Items(leader, rs, |rs|, true), s.collection == MAIL)
  {
    assert t - {} == t;
  }

  /** All records are worked off except those in `rollback`; slots other than `cur` either still
      wait or are rolled back. */
  ghost predicate Rolling(docs0: Tables, before: map<Key, Merged>, leader: Tables, docs: Tables,
                          rollback: map<Key, Merged>, cur: Option<Slot>)
  {
    && (forall k :: k in rollback ==> k in before && rollback[k] == before[k])
    && forall x :: Some(x) != cur ==>
                     var k := RollbackKey(x);
                     if k in before && k !in rollback then
                       RolledBack(TableOf(docs0, x), before[k], TableOf(leader, x), x) == Ok(TableOf(docs, x))
                     else TableOf(docs, x) == TableOf(docs0, x)
  }

  /** The follower waits for the documents of `cur`, whose inserts it has deleted. */
  ghost predicate Awaiting(docs0: Tables, before: map<Key, Merged>, docs: Tables, rollback: map<Key, Merged>, cur: Slot,
                           changes: Merged)
  {
    var k := RollbackKey(cur);
    && k in rollback && k in before && cur.collection != THREAD && !IsSimple(cur, changes)
    && changes == before[k].(inserts := {})
    && DeleteInserts(TableOf(docs0, cur), before[k].inserts, cur) == Ok(TableOf(docs, cur))
  }

  /** Turns taken from a state in which `slot0` was at hand lead on, provided the table of `slot0`
      is rolled back if its record is gone. */
  lemma RollsOn(docs0: Tables, before: map<Key, Merged>, leader: Tables,
                docs1: Tables, rollback1: map<Key, Merged>, docs2: Tables, rollback2: map<Key, Merged>, slot0: Slot)
    requires Rolling(docs0, before, leader, docs1, rollback1, Some(slot0))
    requires WorkedOff(docs1, rollback1, docs2, rollback2, slot0)
    ensures Rolling(docs0, before, leader, docs2, rollback2, Some(slot0))
  {
    forall x | x != slot0
      ensures var k := RollbackKey(x);
              if k in before && k !in rollback2 then
                RolledBack(TableOf(docs0, x), before[k], TableOf(leader, x), x) == Ok(TableOf(docs2, x))
              else TableOf(docs2, x) == TableOf(docs0, x)
    {
      var k := RollbackKey(x);
      if k in rollback1 && k !in rollback2 {
        SimpleRollback(TableOf(docs0, x), before[k], TableOf(leader, x), x);
      }
    }
  }

  lemma RollsIn(docs0: Tables, before: map<Key, Merged>, leader: Tables, docs: Tables, rollback: map<Key, Merged>,
                slot0: Slot)
    requires Rolling(docs0, before, leader, docs, rollback, Some(slot0))
    requires RollbackKey(slot0) in before && RollbackKey(slot0) !in rollback
    requires RolledBack(TableOf(docs0, slot0), before[RollbackKey(slot0)], TableOf(leader, slot0), slot0) ==
             Ok(TableOf(docs, slot0))
    ensures Rolling(docs0, before, leader, docs, rollback, None)
  {
  }

  /** After a turn that has finished `slot0` the follower waits for another slot or is done. */
  lemma TurnDone(docs0: Tables, before: map<Key, Merged>, leader: Tables, docs1: Tables, rollback1: map<Key, Merged>,
                 docs2: Tables, rollback2: map<Key, Merged>, slot0: Slot, changes0: Merged, answer: Answer,
                 reply: Reply)
    requires Rolling(docs0, before, leader, docs1, rollback1, Some(slot0)) && RollbackKey(slot0) in rollback1
    requires Answers(docs1, rollback1, docs2, rollback2, slot0, changes0, answer, reply)
    requires IsSimple(slot0, Remaining(changes0, answer, slot0)) && (answer.Documents? ==> answer.eof)
    requires reply != Failed ==>
               RolledBack(TableOf(docs0, slot0), before[RollbackKey(slot0)], TableOf(leader, slot0), slot0) ==
               Ok(TableOf(docs2, slot0))
    ensures reply.AskFor? ==>
              && Rolling(docs0, before, leader, docs2, rollback2, Some(reply.slot))
              && Awaiting(docs0, before, docs2, rollback2, reply.slot, reply.changes)
              && |rollback2| < |rollback1|
    ensures reply.Finished? ==> Rolling(docs0, before, leader, docs2, rollback2, None) && rollback2 == map[]
    ensures !reply.Continue?
  {
    if reply.AskFor? {
      assert reply.slot != slot0;
      var back := docs2[reply.slot := TableOf(docs1, reply.slot)];
      RollsOn(docs0, before, leader, docs1, rollback1, back, rollback2, slot0);
      RollsIn(docs0, before, leader, back, rollback2, slot0);
      Fewer(rollback1, rollback2, RollbackKey(slot0));
    } else if reply.Finished? {
      RollsOn(docs0, before, leader, docs1, rollback1, docs2, rollback2, slot0);
      RollsIn(docs0, before, leader, docs2, rollback2, slot0);
    }
  }

  lemma Fewer(a: map<Key, Merged>, b: map<Key, Merged>, k: Key)
    requires k in a && k !in b && forall x :: x in b ==> x in a
    ensures |b| < |a|
  {
    StrictSubsetSize(b.Keys, a.Keys, k);
    assert |a| == |a.Keys| && |b| == |b.Keys|;
  }

  /** Some slot cannot be rolled back. */
  ghost predicate Unrollable(docs0: Tables, before: map<Key, Merged>, leader: Tables) {
    exists s :: RollbackKey(s) in before
      && RolledBack(TableOf(docs0, s), before[RollbackKey(s)], TableOf(leader, s), s).Err?
  }

  lemma FirstTurnRolls(docs0: Tables, before: map<Key, Merged>, leader: Tables, docs: Tables,
                       rollback: map<Key, Merged>, slot: Slot, changes: Merged, answer: Answer)
    requires Awaiting(docs0, before, docs, rollback, slot, changes) && answer.Documents?
    requires answer.updates ==
             Items(TableOf(leader, slot), Requests(RollbackRequest(changes)), |Requests(RollbackRequest(changes))|,
                   true)
    ensures FirstTurn(TableOf(docs, slot), changes, answer, slot) ==
            RolledBack(TableOf(docs0, slot), before[RollbackKey(slot)], TableOf(leader, slot), slot)
  {
    FetchedRollback(TableOf(docs0, slot), before[RollbackKey(slot)], TableOf(leader, slot), slot, TableOf(docs, slot));
  }

  /** A turn can only fail where rolling back fails. */
  lemma FailureIsReal(docs0: Tables, before: map<Key, Merged>, leader: Tables, docs1: Tables,
                      rollback1: map<Key, Merged>, slot0: Slot, s: Slot)
    requires Rolling(docs0, before, leader, docs1, rollback1, Some(slot0)) && s != slot0
    requires RollbackKey(s) in rollback1 && DeleteInserts(TableOf(docs1, s), rollback1[RollbackKey(s)].inserts, s).Err?
    ensures Unrollable(docs0, before, leader)
  {
    assert RolledBack(TableOf(docs0, s), before[RollbackKey(s)], TableOf(leader, s), s).Err?;
  }

  /** The rollback records are set up and fit the batch size. */
  ghost predicate Rollable(before: map<Key, Merged>, leader: Tables, maxBatchSize: nat) {
    && SlotKeyed(before)
    && forall s :: RollbackKey(s) in before ==>
       Fits(TableOf(leader, s), RollbackRequest(before[RollbackKey(s)]), maxBatchSize)
  }

  method BeginRollback(f: Follower, ghost leader: Tables) returns (reply: Reply)
    requires SlotKeyed(f.rollback) && f.rollback != map[] && forall k :: k in f.log.raft ==> k.a < NO_INDEX
    modifies f`docs, f`rollback
    ensures !reply.Continue?
    ensures reply.AskFor? ==>
              && Rolling(old(f.docs), old(f.rollback), leader, f.docs, f.rollback, Some(reply.slot))
              && Awaiting(old(f.docs), old(f.rollback), f.docs, f.rollback, reply.slot, reply.changes)
    ensures reply.Finished? ==>
            Rolling(old(f.docs), old(f.rollback), leader, f.docs, f.rollback, None) && f.rollback == map[]
    ensures reply.Failed? ==> Unrollable(old(f.docs), old(f.rollback), leader)
    ensures reply.Finished? ==> IsLastLog(f.log, reply.lastLog)
  {
    ghost var docs0, before := f.docs, f.rollback;
    var k := First(f.rollback.Keys);
    var slot, changes := SlotOf(k), f.rollback[k];
    assert k == RollbackKey(slot);
    reply := HandleRollbackUpdates(f, slot, changes, NoAnswer);
    if IsSimple(slot, changes) {
      SimpleRollback(TableOf(docs0, slot), changes, TableOf(leader, slot), slot);
      TurnDone(docs0, before, leader, docs0, before, f.docs, f.rollback, slot, changes, NoAnswer, reply);
    }
    if reply.Failed? {
      if FirstTurn(TableOf(docs0, slot), changes, NoAnswer, slot).Err? {
        assert RolledBack(TableOf(docs0, slot), before[RollbackKey(slot)], TableOf(leader, slot), slot).Err?;
      } else {
        var s :| s != slot && RollbackKey(s) in before
                 && DeleteInserts(TableOf(docs0, s), before[RollbackKey(s)].inserts, s).Err?;
        FailureIsReal(docs0, before, leader, docs0, before, slot, s);
      }
    }
  }

  /** One request of the follower and the leader's answer to it. */
  method ContinueRollback(f: Follower, leader: Tables, slot: Slot, changes: Merged, maxBatchSize: nat,
                          ghost docs0: Tables, ghost before: map<Key, Merged>) returns (reply: Reply)
    requires Rollable(before, leader, maxBatchSize) && forall k :: k in f.log.raft ==> k.a < NO_INDEX
    requires Rolling(docs0, before, leader, f.docs, f.rollback, Some(slot))
    requires Awaiting(docs0, before, f.docs, f.rollback, slot, changes)
    modifies f`docs, f`rollback
    ensures !reply.Continue?
    ensures reply.AskFor? ==>
              && Rolling(docs0, before, leader, f.docs, f.rollback, Some(reply.slot))
              && Awaiting(docs0, before, f.docs, f.rollback, reply.slot, reply.changes)
              && |f.rollback| < |old(f.rollback)|
    ensures reply.Finished? ==> Rolling(docs0, before, leader, f.docs, f.rollback, None) && f.rollback == map[]
    ensures reply.Failed? ==> Unrollable(docs0, before, leader)
    ensures reply.Finished? ==> IsLastLog(f.log, reply.lastLog)
  {
    ghost var docs1, rollback1 := f.docs, f.rollback;
    var answer := AnswerRollback(leader, slot, changes, maxBatchSize);
    assert RollbackRequest(changes) == RollbackRequest(before[RollbackKey(slot)]);
    FirstTurnRolls(docs0, before, leader, docs1, rollback1, slot, changes, answer);
    reply := HandleRollbackUpdates(f, slot, changes, answer);
    TurnDone(docs0, before, leader, docs1, rollback1, f.docs, f.rollback, slot, changes, answer, reply);
    if reply.Failed? && FirstTurn(TableOf(docs1, slot), changes, answer, slot).Ok? {
      var s :| s != slot && RollbackKey(s) in rollback1
               && DeleteInserts(TableOf(docs1, s), rollback1[RollbackKey(s)].inserts, s).Err?;
      FailureIsReal(docs0, before, leader, docs1, rollback1, slot, s);
    }
  }

  /** The whole rollback: records are worked off and documents fetched until none is left. It can
      fail only if a slot cannot be rolled back; otherwise every slot ends up as `Rollback` says. */
  method RollBack(f: Follower, leader: Tables, maxBatchSize: nat) returns (reply: Reply)
    requires Rollable(f.rollback, leader, maxBatchSize) && f.rollback != map[]
    requires forall k :: k in f.log.raft ==> k.a < NO_INDEX
    modifies f`docs, f`rollback
    ensures reply.Finished? || reply.Failed?
    ensures reply.Finished? ==>
            f.rollback == map[] && Rolling(old(f.docs), old(f.rollback), leader, f.docs, map[], None)
    ensures reply.Failed? ==> Unrollable(old(f.docs), old(f.rollback), leader)
    ensures reply.Finished? ==> IsLastLog(f.log, reply.lastLog)
  {
    ghost var docs0, before := f.docs, f.rollback;
    reply := BeginRollback(f, leader);
    while reply.AskFor?
      invariant !reply.Continue?
      invariant reply.AskFor? ==>
                  && Rolling(docs0, before, leader, f.docs, f.rollback, Some(reply.slot))
                  && Awaiting(docs0, before, f.docs, f.rollback, reply.slot, reply.changes)
      invariant reply.Finished? ==> Rolling(docs0, before, leader, f.docs, f.rollback, None) && f.rollback == map[]
      invariant reply.Failed? ==> Unrollable(docs0, before, leader)
      invariant reply.Finished? ==> IsLastLog(f.log, reply.lastLog)
      decreases if reply.AskFor? then 1 + |f.rollback| else 0
    {
      reply := ContinueRollback(f, leader, reply.slot, reply.changes, maxBatchSize, docs0, before);
    }
  }

  // ----- Resuming an interrupted rollback

  /** A rollback record stays stored until its slot is finished, so a process that is restarted
      begins it again, from the table as it was, without the inserts, or already rolled back. It
      then succeeds exactly for e-mail and where the inserts are (still or again) there, and
      leads to the same table. */
  lemma RollbackResumes(t: Table, m: Merged, leader: Table, s: Slot, t': Table)
    requires s.collection != THREAD && RolledBack(t, m, leader, s).Ok?
    requires t' in {t, t - m.inserts, RolledBack(t, m, leader, s).value}
    ensures RolledBack(t', m, leader, s).Ok? <==> s.collection == MAIL || m.inserts <= t'.Keys
    ensures RolledBack(t', m, leader, s).Ok? ==> RolledBack(t', m, leader, s) == RolledBack(t, m, leader, s)
  {
    var isMail, request, r := s.collection == MAIL, Merged(m.deletes, m.updates, {}), RolledBack(t, m, leader, s).value;
    FetchEffect(t - m.inserts, leader, request, true, isMail);
    FetchEffect(t' - m.inserts, leader, request, true, isMail);
    forall d | d in m.updates * leader.Keys ensures d in t' - m.inserts {
      assert Get(r, d) == Answered(t - m.inserts, leader, d, true);
      assert d in t - m.inserts;
    }
    if isMail || m.inserts <= t'.Keys {
      var r' := RolledBack(t', m, leader, s).value;
      forall d ensures Get(r', d) == Get(r, d) {
        assert Get(r', d) ==
               if d in m.deletes + m.updates then Answered(t' - m.inserts, leader, d, true) else Get(t' - m.inserts, d);
        assert Get(r, d) ==
               if d in m.deletes + m.updates then Answered(t - m.inserts, leader, d, true) else Get(t - m.inserts, d);
      }
      SameTable(r', r);
    }
  }

  /** A mailbox that the suffix inserted: stopped after its deletion, the rollback cannot be resumed. */
  lemma RollbackStuck() returns (t: Table, m: Merged, s: Slot)
    ensures s.collection != THREAD && RolledBack(t, m, map[], s).Ok?
    ensures RolledBack(t - m.inserts, m, map[], s).Err?
  {
    t, m, s := map[7 := Doc(0, [])], Merged({7}, {}, {}), Slot(1, MAILBOX);
    SimpleRollback(t, m, map[], s);
    assert 7 in m.inserts && 7 !in t - m.inserts;
  }
}

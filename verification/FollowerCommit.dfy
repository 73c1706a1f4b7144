/** Committing pending records, the reset at the start of a follower process, and what a stop in
    the middle of either leaves behind. */
module FollowerCommit {
  import opened Common
  import opened KeyOrder
  import opened ChangeLog
  import opened DocumentSync
  import opened LogStore
  import opened LogShipping
  import opened Replica

  // ----- The uninterrupted outcome

  /** Number of leading records that are due for commit. */
  function Due(ps: seq<Pending>, upTo: U64): (n: nat)
    ensures n <= |ps|
  {
    if ps == [] || upTo == NO_INDEX || ps[0].index > upTo then 0 else 1 + Due(ps[1..], upTo)
  }

  predicate IsKept(k: Key, upTo: U64) {
    upTo != NO_INDEX && k.a <= upTo
  }

  function Removed(log: LogDb, upTo: U64): set<Key> {
    set k | k in log.raft && !IsKept(k, upTo)
  }

  /** The log without the entries after `upTo` and without the change records they list. */
  function Truncated(log: LogDb, upTo: U64): LogDb {
    LogDb(log.raft - Removed(log, upTo), log.changes - ChangeKeysOf(log, Removed(log, upTo)))
  }

  /** The index to commit up to: the one given, or the one stored by an earlier call. */
  function Resolve(st: Store, applyUpTo: U64): Option<U64> {
    if applyUpTo != NO_INDEX then Some(applyUpTo) else st.commitKey
  }

  function Outcome(st: Store, applyUpTo: U64, doReset: bool): Result<Store> {
    match Resolve(st, applyUpTo)
    case None => Ok(st)
    case Some(upTo) =>
      var due := Due(st.pending, upTo);
      var docs :- CommitAll(st.docs, st.pending[..due]);
      Ok(if doReset then Store(Truncated(st.log, upTo), docs, [], None)
         else Store(st.log, docs, st.pending[due..], Some(upTo)))
  }

  // ----- The store writes of a commit, one by one

  datatype Write =
    | SetCommitKey(index: U64)
    | WriteTable(slot: Slot, table: Table)
    | DropPending
    | ResetLog(upTo: U64)

  function Exec(st: Store, w: Write): Store {
    match w
    case SetCommitKey(index) => st.(commitKey := Some(index))
    case WriteTable(slot, table) => st.(docs := st.docs[slot := table])
    case DropPending => if st.pending == [] then st else st.(pending := st.pending[1..])
    case ResetLog(upTo) => Store(Truncated(st.log, upTo), st.docs, [], None)
  }

  function ExecAll(st: Store, ws: seq<Write>): Store
    decreases |ws|
  {
    if ws == [] then st else Exec(ExecAll(st, ws[..|ws| - 1]), ws[|ws| - 1])
  }

  lemma {:induction false} ExecConcat(st: Store, vs: seq<Write>, ws: seq<Write>)
    ensures ExecAll(st, vs + ws) == ExecAll(ExecAll(st, vs), ws)
    decreases |ws|
  {
    if ws == [] {
      assert vs + ws == vs;
    } else {
      ExecConcat(st, vs, ws[..|ws| - 1]);
      assert (vs + ws)[..|vs + ws| - 1] == vs + ws[..|ws| - 1];
    }
  }

  /** Two writes per record: its table, then the removal of its key. */
  function RecordWrites(docs: Tables, ps: seq<Pending>): seq<Write>
    requires CommitAll(docs, ps).Ok?
    decreases |ps|
  {
    if ps == [] then []
    else
      var front, p := ps[..|ps| - 1], ps[|ps| - 1];
      RecordWrites(docs, front) + [WriteTable(p.slot, TableOf(CommitAll(docs, ps).value, p.slot)), DropPending]
  }

  function CommitWrites(st: Store, applyUpTo: U64, doReset: bool): seq<Write>
    requires Outcome(st, applyUpTo, doReset).Ok?
  {
    match Resolve(st, applyUpTo)
    case None => []
    case Some(upTo) =>
      (if applyUpTo != NO_INDEX then [SetCommitKey(upTo)] else [])
        + RecordWrites(st.docs, st.pending[..Due(st.pending, upTo)])
        + if doReset then [ResetLog(upTo)] else []
  }

  // ----- Where a commit can stop

  /** The state of a commit that stopped among the writes of the records `ps`: `k` records are
      done, and the table of the next one may be written as well. */
  function Midway(st: Store, ps: seq<Pending>, k: nat, half: bool): Store
    requires k <= |ps| && (half ==> k < |ps|) && CommitAll(st.docs, ps[..k]).Ok?
    requires half ==> CommitAll(st.docs, ps[..k + 1]).Ok?
    requires k <= |st.pending|
  {
    st.(docs := CommitAll(st.docs, if half then ps[..k + 1] else ps[..k]).value, pending := st.pending[k..])
  }

  lemma {:induction false} PrefixCommits(docs: Tables, ps: seq<Pending>, k: nat)
    requires k <= |ps| && CommitAll(docs, ps).Ok?
    ensures CommitAll(docs, ps[..k]).Ok?
    decreases |ps|
  {
    if k < |ps| {
      PrefixCommits(docs, ps[..|ps| - 1], k);
      assert ps[..|ps| - 1][..k] == ps[..k];
    } else {
      assert ps[..k] == ps;
    }
  }

  lemma LastRecord(st: Store, ps: seq<Pending>)
    requires ps != [] && ps <= st.pending && CommitAll(st.docs, ps).Ok?
    ensures CommitAll(st.docs, ps[..|ps| - 1]).Ok?
    ensures var k := |ps| - 1;
            var mid := st.(docs := CommitAll(st.docs, ps[..k]).value, pending := st.pending[k..]);
            var ws := [WriteTable(ps[k].slot, TableOf(CommitAll(st.docs, ps).value, ps[k].slot)), DropPending];
            && ExecAll(mid, ws[..1]) == mid.(docs := CommitAll(st.docs, ps).value)
            && ExecAll(mid, ws) == mid.(docs := CommitAll(st.docs, ps).value, pending := st.pending[|ps|..])
  {
    var k := |ps| - 1;
    CommitLast(st.docs, ps);
    var mid := st.(docs := CommitAll(st.docs, ps[..k]).value, pending := st.pending[k..]);
    ExecRecord(mid, ps[k].slot, TableOf(CommitAll(st.docs, ps).value, ps[k].slot));
    assert st.pending[k..][1..] == st.pending[|ps|..];
  }

  /** The last record changes the table of its slot only. */
  lemma CommitLast(docs: Tables, ps: seq<Pending>)
    requires ps != [] && CommitAll(docs, ps).Ok?
    ensures CommitAll(docs, ps[..|ps| - 1]).Ok?
    ensures var slot, after := ps[|ps| - 1].slot, CommitAll(docs, ps).value;
            after == CommitAll(docs, ps[..|ps| - 1]).value[slot := TableOf(after, slot)]
  {
  }

  /** The two writes of a record. */
  lemma ExecRecord(st: Store, slot: Slot, t: Table)
    requires st.pending != []
    ensures var ws := [WriteTable(slot, t), DropPending];
            && ExecAll(st, ws[..1]) == st.(docs := st.docs[slot := t])
            && ExecAll(st, ws) == st.(docs := st.docs[slot := t], pending := st.pending[1..])
  {
    var ws := [WriteTable(slot, t), DropPending];
    assert ws[..0] == [] && ExecAll(st, ws[..0]) == st;
    ExecNext(st, ws, 0);
    ExecNext(st, ws, 1);
    assert ws[..2] == ws;
  }

  lemma {:induction false} WritesLength(docs: Tables, ps: seq<Pending>)
    requires CommitAll(docs, ps).Ok?
    ensures |RecordWrites(docs, ps)| == 2 * |ps|
    decreases |ps|
  {
    if ps != [] {
      WritesLength(docs, ps[..|ps| - 1]);
    }
  }

  lemma {:induction false} WritesPrefix(docs: Tables, ps: seq<Pending>, k: nat)
    requires k <= |ps| && CommitAll(docs, ps).Ok?
    ensures CommitAll(docs, ps[..k]).Ok? && 2 * k <= |RecordWrites(docs, ps)|
    ensures RecordWrites(docs, ps)[..2 * k] == RecordWrites(docs, ps[..k])
    ensures k < |ps| ==>
              && CommitAll(docs, ps[..k + 1]).Ok? && |RecordWrites(docs, ps)| >= 2 * k + 2
              && RecordWrites(docs, ps)[2 * k] ==
                 WriteTable(ps[k].slot, TableOf(CommitAll(docs, ps[..k + 1]).value, ps[k].slot))
    decreases |ps|
  {
    WritesLength(docs, ps);
    if k == |ps| {
      assert ps[..k] == ps;
    } else {
      var front := ps[..|ps| - 1];
      WritesLength(docs, front);
      assert ps[..k] == front[..k];
      WritesPrefix(docs, front, k);
      if k == |front| {
        assert ps[..k + 1] == ps;
      } else {
        assert front[..k + 1] == ps[..k + 1];
      }
    }
  }

  lemma {:induction false} WholeRecords(st: Store, ps: seq<Pending>)
    requires ps <= st.pending && CommitAll(st.docs, ps).Ok?
    ensures ExecAll(st, RecordWrites(st.docs, ps)) ==
            st.(docs := CommitAll(st.docs, ps).value, pending := st.pending[|ps|..])
    decreases |ps|
  {
    if ps == [] {
      assert st.pending[0..] == st.pending;
    } else {
      var front, p := ps[..|ps| - 1], ps[|ps| - 1];
      WholeRecords(st, front);
      LastRecord(st, ps);
      ExecConcat(st, RecordWrites(st.docs, front),
                 [WriteTable(p.slot, TableOf(CommitAll(st.docs, ps).value, p.slot)), DropPending]);
    }
  }

  lemma ExecNext(st: Store, ws: seq<Write>, n: nat)
    requires n < |ws|
    ensures ExecAll(st, ws[..n + 1]) == Exec(ExecAll(st, ws[..n]), ws[n])
  {
    assert ws[..n + 1][..n] == ws[..n];
  }

  lemma StopBetweenRecords(st: Store, ps: seq<Pending>, k: nat)
    requires ps <= st.pending && CommitAll(st.docs, ps).Ok? && k <= |ps|
    ensures 2 * k <= |RecordWrites(st.docs, ps)| && CommitAll(st.docs, ps[..k]).Ok?
    ensures ExecAll(st, RecordWrites(st.docs, ps)[..2 * k]) == Midway(st, ps, k, false)
  {
    WritesPrefix(st.docs, ps, k);
    WholeRecords(st, ps[..k]);
  }

  lemma ExecTable(st: Store, ws: seq<Write>, n: nat, mid: Store, slot: Slot, docs: Tables)
    requires n < |ws| && ExecAll(st, ws[..n]) == mid
    requires ws[n] == WriteTable(slot, TableOf(docs, slot)) && mid.docs[slot := TableOf(docs, slot)] == docs
    ensures ExecAll(st, ws[..n + 1]) == mid.(docs := docs)
  {
    ExecNext(st, ws, n);
  }

  /** The first write of a record leads to the tables after it. */
  lemma NextRecord(docs: Tables, ps: seq<Pending>, k: nat)
    requires CommitAll(docs, ps).Ok? && k < |ps|
    ensures CommitAll(docs, ps[..k]).Ok? && CommitAll(docs, ps[..k + 1]).Ok? && |RecordWrites(docs, ps)| > 2 * k
    ensures var slot, after := ps[k].slot, CommitAll(docs, ps[..k + 1]).value;
            && RecordWrites(docs, ps)[2 * k] == WriteTable(slot, TableOf(after, slot))
            && CommitAll(docs, ps[..k]).value[slot := TableOf(after, slot)] == after
  {
    WritesPrefix(docs, ps, k);
    CommitLast(docs, ps[..k + 1]);
    assert ps[..k + 1][..k] == ps[..k];
  }

  lemma StopInsideRecord(st: Store, ps: seq<Pending>, k: nat)
    requires ps <= st.pending && CommitAll(st.docs, ps).Ok? && k < |ps|
    ensures 2 * k + 1 <= |RecordWrites(st.docs, ps)|
    ensures CommitAll(st.docs, ps[..k]).Ok? && CommitAll(st.docs, ps[..k + 1]).Ok?
    ensures ExecAll(st, RecordWrites(st.docs, ps)[..2 * k + 1]) == Midway(st, ps, k, true)
  {
    NextRecord(st.docs, ps, k);
    StopBetweenRecords(st, ps, k);
    var mid, docs := Midway(st, ps, k, false), CommitAll(st.docs, ps[..k + 1]).value;
    ExecTable(st, RecordWrites(st.docs, ps), 2 * k, mid, ps[k].slot, docs);
    assert Midway(st, ps, k, true) == mid.(docs := docs);
  }

  // ----- Going on after a stop

  lemma {:induction false} DueDrop(ps: seq<Pending>, upTo: U64, k: nat)
    requires k <= Due(ps, upTo)
    ensures Due(ps[k..], upTo) == Due(ps, upTo) - k
    ensures ps[k..][..Due(ps, upTo) - k] == ps[..Due(ps, upTo)][k..]
  {
    if k > 0 {
      DueDrop(ps[1..], upTo, k - 1);
      assert ps[1..][k - 1..] == ps[k..];
    } else {
      assert ps[0..] == ps;
    }
  }

  /** From any state between two writes, committing the remaining records gives the same tables. */
  lemma MidwayCommits(docs: Tables, ps: seq<Pending>, k: nat, half: bool)
    requires k <= |ps| && (half ==> k < |ps|) && CommitAll(docs, ps).Ok?
    requires forall i :: 0 <= i < |ps| ==> Shaped(ps[i].work)
    ensures CommitAll(docs, ps[..k]).Ok? && (half ==> CommitAll(docs, ps[..k + 1]).Ok?)
    ensures CommitAll(CommitAll(docs, if half then ps[..k + 1] else ps[..k]).value, ps[k..]) == CommitAll(docs, ps)
  {
    PrefixCommits(docs, ps, k);
    assert ps[..k] + ps[k..] == ps;
    if half {
      assert ps[..k + 1] == ps[..k] + [ps[k]] && ps[k..] == [ps[k]] + ps[k + 1..];
      PrefixCommits(docs, ps, k + 1);
      OneTwice(docs, ps[..k], ps[k], ps[k + 1..]);
    } else {
      CommitConcat(docs, ps[..k], ps[k..]);
    }
  }

  lemma OneTwice(docs: Tables, front: seq<Pending>, p: Pending, rest: seq<Pending>)
    requires Shaped(p.work) && CommitAll(docs, front).Ok? && CommitAll(docs, front + [p]).Ok?
    ensures CommitAll(CommitAll(docs, front + [p]).value, [p] + rest) == CommitAll(docs, front + ([p] + rest))
  {
    CommitConcat(docs, front, [p]);
    CommitConcat(docs, front, [p] + rest);
    FirstTwice(CommitAll(docs, front).value, p, rest);
  }

  /** Committing the first record once more before all the records changes nothing. */
  lemma FirstTwice(docs: Tables, p: Pending, rest: seq<Pending>)
    requires Shaped(p.work) && CommitAll(docs, [p]).Ok?
    ensures CommitAll(CommitAll(docs, [p]).value, [p] + rest) == CommitAll(docs, [p] + rest)
  {
    CommitSingle(docs, p);
    var docs' := CommitOne(docs, p).value;
    CommitOneTwice(docs, p);
    CommitSingle(docs', p);
    CommitConcat(docs', [p], rest);
    CommitConcat(docs, [p], rest);
  }

  lemma CommitSingle(docs: Tables, p: Pending)
    ensures CommitAll(docs, [p]) == CommitOne(docs, p)
  {
    assert [p][..0] == [];
    assert CommitAll(docs, [p][..0]) == Ok(docs);
  }

  lemma TruncatedTwice(log: LogDb, upTo: U64)
    ensures Truncated(Truncated(log, upTo), upTo) == Truncated(log, upTo)
  {
    var log' := Truncated(log, upTo);
    assert Removed(log', upTo) == {};
    assert ChangeKeysOf(log', {}) == {};
  }

  // ----- A stop at any point

  /** `st'` lies on the way of committing `st`: before the first write, after the last, or among
      the writes of the due records. */
  ghost predicate Stopped(st: Store, upTo: U64, outcome: Store, st': Store) {
    var ps := st.pending[..Due(st.pending, upTo)];
    || st' == st
    || st' == outcome
    || exists k: nat, half :: OnTheWay(st.(commitKey := Some(upTo)), ps, k, half, st')
  }

  ghost predicate OnTheWay(st: Store, ps: seq<Pending>, k: nat, half: bool, st': Store) {
    && k <= |ps| && (half ==> k < |ps|) && k <= |st.pending|
    && CommitAll(st.docs, ps[..k]).Ok? && (half ==> CommitAll(st.docs, ps[..k + 1]).Ok?)
    && st' == Midway(st, ps, k, half)
  }

  lemma StopAmongRecords(st: Store, ps: seq<Pending>, n: nat) returns (k: nat, half: bool)
    requires ps <= st.pending && CommitAll(st.docs, ps).Ok? && n <= |RecordWrites(st.docs, ps)|
    ensures OnTheWay(st, ps, k, half, ExecAll(st, RecordWrites(st.docs, ps)[..n]))
  {
    WritesLength(st.docs, ps);
    k := n / 2;
    half := n == 2 * k + 1;
    if half {
      StopInside(st, ps, k, n);
    } else {
      StopBetween(st, ps, k, n);
    }
  }

  lemma StopBetween(st: Store, ps: seq<Pending>, k: nat, n: nat)
    requires ps <= st.pending && CommitAll(st.docs, ps).Ok? && k <= |ps| && n == 2 * k <= |RecordWrites(st.docs, ps)|
    ensures OnTheWay(st, ps, k, false, ExecAll(st, RecordWrites(st.docs, ps)[..n]))
  {
    StopBetweenRecords(st, ps, k);
  }

  lemma StopInside(st: Store, ps: seq<Pending>, k: nat, n: nat)
    requires ps <= st.pending && CommitAll(st.docs, ps).Ok? && k < |ps| && n == 2 * k + 1 <= |RecordWrites(st.docs, ps)|
    ensures OnTheWay(st, ps, k, true, ExecAll(st, RecordWrites(st.docs, ps)[..n]))
  {
    StopInsideRecord(st, ps, k);
  }

  lemma WritesSplit(st: Store, applyUpTo: U64, doReset: bool, upTo: U64)
    requires Outcome(st, applyUpTo, doReset).Ok? && Resolve(st, applyUpTo) == Some(upTo)
    ensures CommitAll(st.docs, DueRecords(st, upTo)).Ok?
    ensures CommitWrites(st, applyUpTo, doReset) ==
            FirstWrites(applyUpTo, upTo) + RecordWrites(st.docs, DueRecords(st, upTo)) + LastWrites(doReset, upTo)
  {
  }

  function DueRecords(st: Store, upTo: U64): seq<Pending> {
    st.pending[..Due(st.pending, upTo)]
  }

  function FirstWrites(applyUpTo: U64, upTo: U64): seq<Write> {
    if applyUpTo != NO_INDEX then [SetCommitKey(upTo)] else []
  }

  function LastWrites(doReset: bool, upTo: U64): seq<Write> {
    if doReset then [ResetLog(upTo)] else []
  }

  /** All writes lead to the outcome. */
  lemma WritesEnd(st: Store, applyUpTo: U64, doReset: bool, upTo: U64)
    requires Outcome(st, applyUpTo, doReset).Ok? && Resolve(st, applyUpTo) == Some(upTo)
    ensures ExecAll(st, CommitWrites(st, applyUpTo, doReset)) == Outcome(st, applyUpTo, doReset).value
  {
    var st1, ps := st.(commitKey := Some(upTo)), DueRecords(st, upTo);
    WritesSplit(st, applyUpTo, doReset, upTo);
    var pre, rec, post := FirstWrites(applyUpTo, upTo), RecordWrites(st.docs, ps), LastWrites(doReset, upTo);
    ExecPre(st, applyUpTo, upTo);
    ExecConcat(st, pre, rec);
    WholeRecords(st1, ps);
    ExecConcat(st, pre + rec, post);
    ExecPost(ExecAll(st, pre + rec), doReset, upTo);
  }

  /** Fewer writes lead to the state before, or to one on the way. */
  lemma WritesStop(st: Store, applyUpTo: U64, doReset: bool, upTo: U64, n: nat) returns (k: nat, half: bool)
    requires Outcome(st, applyUpTo, doReset).Ok? && Resolve(st, applyUpTo) == Some(upTo)
    requires n < |CommitWrites(st, applyUpTo, doReset)|
    ensures var st' := ExecAll(st, CommitWrites(st, applyUpTo, doReset)[..n]);
            || (n == 0 && st' == st)
            || OnTheWay(st.(commitKey := Some(upTo)), DueRecords(st, upTo), k, half, st')
  {
    k, half := 0, false;
    var st1, ps, ws := st.(commitKey := Some(upTo)), DueRecords(st, upTo), CommitWrites(st, applyUpTo, doReset);
    WritesSplit(st, applyUpTo, doReset, upTo);
    var pre, rec := FirstWrites(applyUpTo, upTo), RecordWrites(st.docs, ps);
    if n < |pre| {
      assert ws[..n] == [];
    } else {
      var m := n - |pre|;
      assert ws[..n] == pre + rec[..m];
      ExecPre(st, applyUpTo, upTo);
      ExecConcat(st, pre, rec[..m]);
      k, half := StopAmongRecords(st1, ps, m);
    }
  }

  /** The writes really are those of the commit: all of them lead to its outcome, and any prefix
      leads to a state on the way. */
  lemma WritesReachOutcome(st: Store, applyUpTo: U64, doReset: bool, n: nat)
    requires Outcome(st, applyUpTo, doReset).Ok? && Resolve(st, applyUpTo).Some?
    requires n <= |CommitWrites(st, applyUpTo, doReset)|
    ensures var ws := CommitWrites(st, applyUpTo, doReset);
            var outcome := Outcome(st, applyUpTo, doReset).value;
            && (n == |ws| ==> ExecAll(st, ws[..n]) == outcome)
            && Stopped(st, Resolve(st, applyUpTo).value, outcome, ExecAll(st, ws[..n]))
            && (n > 0 && applyUpTo != NO_INDEX ==>
                ExecAll(st, ws[..n]) == outcome || ExecAll(st, ws[..n]).commitKey == Some(applyUpTo))
  {
    var upTo, ws := Resolve(st, applyUpTo).value, CommitWrites(st, applyUpTo, doReset);
    if n == |ws| {
      assert ws[..n] == ws;
      WritesEnd(st, applyUpTo, doReset, upTo);
    } else {
      var k, half := WritesStop(st, applyUpTo, doReset, upTo, n);
    }
  }

  lemma ExecPre(st: Store, applyUpTo: U64, upTo: U64)
    requires Resolve(st, applyUpTo) == Some(upTo)
    ensures ExecAll(st, FirstWrites(applyUpTo, upTo)) == st.(commitKey := Some(upTo))
  {
    if applyUpTo != NO_INDEX {
      assert [SetCommitKey(upTo)][..0] == [];
      assert ExecAll(st, [SetCommitKey(upTo)][..0]) == st;
    }
  }

  lemma ExecPost(st: Store, doReset: bool, upTo: U64)
    ensures ExecAll(st, LastWrites(doReset, upTo)) == if doReset then Exec(st, ResetLog(upTo)) else st
  {
    if doReset {
      assert [ResetLog(upTo)][..0] == [];
      assert ExecAll(st, [ResetLog(upTo)][..0]) == st;
    }
  }

  /** From `st'` a commit gets as far as from `st`. */
  ghost predicate Continues(st: Store, upTo: U64, st': Store) {
    && st'.log == st.log
    && CommitAll(st'.docs, DueRecords(st', upTo)) == CommitAll(st.docs, DueRecords(st, upTo))
    && st'.pending[Due(st'.pending, upTo)..] == st.pending[Due(st.pending, upTo)..]
  }

  /** Committing goes on from any point on the way. */
  lemma GoesOn(st: Store, upTo: U64, k: nat, half: bool, st': Store)
    requires OnTheWay(st, DueRecords(st, upTo), k, half, st') && CommitAll(st.docs, DueRecords(st, upTo)).Ok?
    requires forall i :: 0 <= i < |st.pending| ==> Shaped(st.pending[i].work)
    ensures Continues(st, upTo, st') && st'.commitKey == st.commitKey
  {
    var ps := DueRecords(st, upTo);
    DueDrop(st.pending, upTo, k);
    assert DueRecords(st', upTo) == ps[k..];
    assert st'.pending[Due(st'.pending, upTo)..] == st.pending[|ps|..];
    MidwayCommits(st.docs, ps, k, half);
  }

  /** What a commit leads to depends on what is due, what is left, and the log. */
  lemma OutcomeSame(st: Store, applyUpTo: U64, doReset: bool, st': Store, applyUpTo': U64, doReset': bool, upTo: U64)
    requires Resolve(st, applyUpTo) == Resolve(st', applyUpTo') == Some(upTo) && Continues(st, upTo, st')
    requires Outcome(st, applyUpTo, doReset).Ok?
    ensures var done, done' := Outcome(st, applyUpTo, doReset), Outcome(st', applyUpTo', doReset');
            && done'.Ok? && done'.value.docs == done.value.docs
            && (doReset == doReset' ==> done' == done)
  {
  }

  lemma OutcomeAgain(st: Store, applyUpTo: U64, doReset: bool)
    requires Outcome(st, applyUpTo, doReset).Ok? && Resolve(st, applyUpTo).Some?
    ensures var done := Outcome(st, applyUpTo, doReset).value;
            && Outcome(done, applyUpTo, doReset) == Ok(done)
            && Outcome(done, NO_INDEX, true).Ok? && Outcome(done, NO_INDEX, true).value.docs == done.docs
  {
    var upTo := Resolve(st, applyUpTo).value;
    var due := Due(st.pending, upTo);
    DueDrop(st.pending, upTo, due);
    TruncatedTwice(st.log, upTo);
    var done := Outcome(st, applyUpTo, doReset).value;
    assert done.pending[..0] == [] && done.pending[0..] == done.pending;
  }

  /** From a state on the way the commit leads to the same outcome, and so does the recovery. */
  lemma StoppedOnTheWay(st: Store, applyUpTo: U64, doReset: bool, upTo: U64, st1: Store, k: nat, half: bool, st': Store)
    requires forall i :: 0 <= i < |st1.pending| ==> Shaped(st1.pending[i].work)
    requires Outcome(st, applyUpTo, doReset).Ok? && Resolve(st, applyUpTo) == Some(upTo)
             && st1 == st.(commitKey := Some(upTo))
    requires OnTheWay(st1, DueRecords(st1, upTo), k, half, st')
    ensures Outcome(st', applyUpTo, doReset) == Outcome(st, applyUpTo, doReset)
    ensures Outcome(st', NO_INDEX, true).Ok?
            && Outcome(st', NO_INDEX, true).value.docs == Outcome(st, applyUpTo, doReset).value.docs
  {
    GoesOn(st1, upTo, k, half, st');
    assert Continues(st, upTo, st');
    OutcomeSame(st, applyUpTo, doReset, st', applyUpTo, doReset, upTo);
    OutcomeSame(st, applyUpTo, doReset, st', NO_INDEX, true, upTo);
  }

  /** Crash-tolerant commit: stop a commit after any number of its store writes. Running the same
      call again leads to the very store the uninterrupted call leads to; so does, for the
      documents, the recovery that every follower process starts with, provided the stopped call
      had come to store the index it commits up to. */
  lemma CrashTolerantCommit(st: Store, applyUpTo: U64, doReset: bool, n: nat)
    requires forall i :: 0 <= i < |st.pending| ==> Shaped(st.pending[i].work)
    requires Outcome(st, applyUpTo, doReset).Ok?
    requires n <= |CommitWrites(st, applyUpTo, doReset)|
    ensures var st' := ExecAll(st, CommitWrites(st, applyUpTo, doReset)[..n]);
            var outcome := Outcome(st, applyUpTo, doReset);
            && Outcome(st', applyUpTo, doReset) == outcome
            && (n > 0 || applyUpTo == NO_INDEX ==>
                  var recovered := Outcome(st', NO_INDEX, true);
                  recovered.Ok? && recovered.value.docs == outcome.value.docs)
  {
    var st' := ExecAll(st, CommitWrites(st, applyUpTo, doReset)[..n]);
    if Resolve(st, applyUpTo).Some? {
      var upTo := Resolve(st, applyUpTo).value;
      WritesReachOutcome(st, applyUpTo, doReset, n);
      OutcomeAgain(st, applyUpTo, doReset);
      var outcome := Outcome(st, applyUpTo, doReset).value;
      if st' != outcome && st' != st {
        var ps := st.pending[..Due(st.pending, upTo)];
        var k: nat, half :| OnTheWay(st.(commitKey := Some(upTo)), ps, k, half, st');
        StoppedOnTheWay(st, applyUpTo, doReset, upTo, st.(commitKey := Some(upTo)), k, half, st');
      }
    }
  }

  /** After a reset no pending record is left, the log ends at the index, and no change record of
      a removed entry is left. */
  lemma ResetIsClean(st: Store, applyUpTo: U64)
    requires Outcome(st, applyUpTo, true).Ok? && Resolve(st, applyUpTo).Some?
    ensures var upTo, done := Resolve(st, applyUpTo).value, Outcome(st, applyUpTo, true).value;
            && done.pending == [] && done.commitKey == None
            && (forall k :: k in done.log.raft <==> k in st.log.raft && upTo != NO_INDEX && k.a <= upTo)
            && (forall k, s :: k in st.log.raft && k !in done.log.raft && s in EntrySlots(st.log.raft[k].entry) ==>
                  ChangeKey(s, k.a) !in done.log.changes)
            && (forall k :: k in st.log.changes && k !in done.log.changes ==>
                  exists e :: e in st.log.raft && e !in done.log.raft && e.a == k.c)
  {
  }
}

/** Recipients of an LMTP transaction: each account gets the message once, and each accepted RCPT
    command gets one reply (section 4.2 of RFC 2033). */
module LmtpRecipients {

  type AccountId = nat

  datatype Status = Success | TemporaryFailure | PermanentFailure | Duplicated

  /** What a recipient address stands for. */
  datatype Recipient = Individual(id: AccountId) | List(ids: seq<AccountId>) | NotFound | Unavailable

  datatype Rcpt = Mailbox(id: AccountId, status: Status) | MailingList(ids: seq<AccountId>, status: Status)

  /** The outcome of delivering to an account may depend on the deliveries made before. */
  type Delivery = (seq<AccountId>, AccountId) -> Status

  // ----- RCPT commands

  function Accounts(r: Recipient): seq<AccountId> {
    match r
    case Individual(id) => [id]
    case List(ids) => ids
    case NotFound => []
    case Unavailable => []
  }

  predicate IsAccepted(r: Recipient) {
    r.Individual? || r.List?
  }

  /** The accounts not seen yet, each once, in order. */
  function Unseen(seen: set<AccountId>, ids: seq<AccountId>): seq<AccountId>
    decreases |ids|
  {
    if ids == [] then []
    else if ids[0] in seen then Unseen(seen, ids[1..])
    else [ids[0]] + Unseen(seen + {ids[0]}, ids[1..])
  }

  function AccountSet(ids: seq<AccountId>): set<AccountId> {
    set id | id in ids
  }

  /** The accounts that a recorded RCPT command delivers to. */
  function Targets(r: Rcpt): seq<AccountId> {
    match r
    case Mailbox(id, status) => if status == Duplicated then [] else [id]
    case MailingList(ids, status) => if status == Duplicated then [] else ids
  }

  function AllTargets(rcpts: seq<Rcpt>): seq<AccountId> {
    if rcpts == [] then [] else AllTargets(rcpts[..|rcpts| - 1]) + Targets(rcpts[|rcpts| - 1])
  }

  /** What an accepted command is recorded as. */
  function Record(seen: set<AccountId>, r: Recipient): Rcpt
    requires IsAccepted(r)
  {
    match r
    case Individual(id) => Mailbox(id, if id in seen then Duplicated else Success)
    case List(ids) =>
      var added := Unseen(seen, ids);
      MailingList(added, if added == [] then Duplicated else Success)
  }

  ghost predicate NoRepeats(ids: seq<AccountId>) {
    forall i, j :: 0 <= i < j < |ids| ==> ids[i] != ids[j]
  }

  lemma {:induction false} UnseenFacts(seen: set<AccountId>, ids: seq<AccountId>)
    ensures var added := Unseen(seen, ids);
            && NoRepeats(added) && (forall id :: id in added <==> id in ids && id !in seen)
    decreases |ids|
  {
    if ids != [] {
      assert forall id :: id in ids <==> id == ids[0] || id in ids[1..];
      if ids[0] in seen {
        UnseenFacts(seen, ids[1..]);
      } else {
        UnseenFacts(seen + {ids[0]}, ids[1..]);
        var rest := Unseen(seen + {ids[0]}, ids[1..]);
        assert forall id :: id in [ids[0]] + rest <==> id == ids[0] || id in rest;
        assert forall i :: 0 <= i < |rest| ==> rest[i] in rest;
      }
    }
  }

  /** A repeated recipient names an account seen before it. */
  ghost predicate RepeatsSeen(rcpts: seq<Rcpt>) {
    forall i :: 0 <= i < |rcpts| && rcpts[i].Mailbox? && rcpts[i].status == Duplicated ==>
      rcpts[i].id in AllTargets(rcpts[..i])
  }

  /** The accounts noted as seen are those to be delivered to, each once. */
  ghost predicate Consistent(rcpts: seq<Rcpt>, seen: set<AccountId>) {
    && NoRepeats(AllTargets(rcpts)) && seen == AccountSet(AllTargets(rcpts))
    && RepeatsSeen(rcpts)
  }

  class Session {
    var rcptTo: seq<Rcpt>
    var rcptToDup: set<AccountId>

    ghost predicate Valid()
      reads this
    {
      Consistent(rcptTo, rcptToDup)
    }

    constructor ()
      ensures Valid() && rcptTo == []
    {
      rcptTo, rcptToDup := [], {};
    }

    method AddList(ids: seq<AccountId>) returns (added: seq<AccountId>)
      modifies this`rcptToDup
      ensures added == Unseen(old(rcptToDup), ids) && rcptToDup == old(rcptToDup) + AccountSet(added)
    {
      added := [];
      for i := 0 to |ids|
        invariant Unseen(old(rcptToDup), ids) == added + Unseen(rcptToDup, ids[i..])
        invariant rcptToDup == old(rcptToDup) + AccountSet(added)
      {
        assert ids[i..][1..] == ids[i + 1..];
        if ids[i] !in rcptToDup {
          rcptToDup := rcptToDup + {ids[i]};
          assert AccountSet(added + [ids[i]]) == AccountSet(added) + {ids[i]};
          added := added + [ids[i]];
        }
      }
    }

    /** A RCPT command: it is recorded if the address is known. */
    method Receive(r: Recipient) returns (accepted: bool)
      requires Valid()
      modifies this
      ensures Valid() && accepted == IsAccepted(r)
      ensures rcptTo == if accepted then old(rcptTo) + [Record(old(rcptToDup), r)] else old(rcptTo)
      ensures rcptToDup == old(rcptToDup) + AccountSet(Accounts(r))
    {
      ghost var before, seen := rcptTo, rcptToDup;
      accepted := true;
      match r {
        case Individual(id) =>
          var isNew := id !in rcptToDup;
          rcptToDup := rcptToDup + {id};
          rcptTo := rcptTo + [Mailbox(id, if isNew then Success else Duplicated)];
        case List(ids) =>
          var added := AddList(ids);
          rcptTo := rcptTo + [MailingList(added, if added != [] then Success else Duplicated)];
        case NotFound =>
          accepted := false;
        case Unavailable =>
          accepted := false;
      }
      if accepted {
        RecordFacts(seen, r);
        assert rcptTo == before + [Record(seen, r)] && rcptToDup == seen + AccountSet(Accounts(r));
        RecordKeepsValid(before, seen, r);
      } else {
        assert AccountSet([]) == {};
      }
    }
  }

  lemma NoRepeatsConcat(a: seq<AccountId>, b: seq<AccountId>)
    requires NoRepeats(a) && NoRepeats(b) && forall id :: id in b ==> id !in a
    ensures NoRepeats(a + b)
    ensures AccountSet(a + b) == AccountSet(a) + AccountSet(b)
  {
    forall i, j | 0 <= i < j < |a + b| ensures (a + b)[i] != (a + b)[j] {
      if i < |a| <= j {
        assert a[i] in a && b[j - |a|] in b;
      }
    }
  }

  lemma RepeatsSeenSnoc(rcpts: seq<Rcpt>, r: Rcpt)
    requires RepeatsSeen(rcpts) && (r.Mailbox? && r.status == Duplicated ==> r.id in AllTargets(rcpts))
    ensures RepeatsSeen(rcpts + [r])
  {
    var more := rcpts + [r];
    forall i | 0 <= i < |more| && more[i].Mailbox? && more[i].status == Duplicated
      ensures more[i].id in AllTargets(more[..i])
    {
      assert more[..i] == rcpts[..i];
      assert rcpts[..|rcpts|] == rcpts;
    }
  }

  lemma RecordFacts(seen: set<AccountId>, r: Recipient)
    requires IsAccepted(r)
    ensures var added := Targets(Record(seen, r));
            && NoRepeats(added) && (forall id :: id in added ==> id !in seen)
            && seen + AccountSet(added) == seen + AccountSet(Accounts(r))
  {
    UnseenFacts(seen, Accounts(r));
  }

  lemma RecordKeepsValid(rcpts: seq<Rcpt>, seen: set<AccountId>, r: Recipient)
    requires Consistent(rcpts, seen) && IsAccepted(r)
    ensures Consistent(rcpts + [Record(seen, r)], seen + AccountSet(Accounts(r)))
  {
    var record := Record(seen, r);
    assert (rcpts + [record])[..|rcpts|] == rcpts;
    RecordFacts(seen, r);
    NoRepeatsConcat(AllTargets(rcpts), Targets(record));
    RepeatsSeenSnoc(rcpts, record);
  }

  // ----- Delivering the message

  /** The outcome of the `k`-th delivery. */
  function Outcome(deliver: Delivery, ids: seq<AccountId>, k: nat): Status
    requires k < |ids|
  {
    deliver(ids[..k], ids[k])
  }

  ghost predicate NeverDuplicated(deliver: Delivery) {
    forall before, id :: deliver(before, id) != Duplicated
  }

  /** Some delivery from number `from` on had this outcome. */
  ghost predicate Occurs(deliver: Delivery, ids: seq<AccountId>, from: nat, status: Status) {
    exists k :: from <= k < |ids| && Outcome(deliver, ids, k) == status
  }

  lemma OccursNext(deliver: Delivery, ids: seq<AccountId>, id: AccountId, from: nat, status: Status)
    requires from <= |ids|
    ensures Occurs(deliver, ids + [id], from, status) <==>
            Occurs(deliver, ids, from, status) || deliver(ids, id) == status
  {
    var more := ids + [id];
    assert more[..|ids|] == ids;
    assert Outcome(deliver, more, |ids|) == deliver(ids, id);
    assert forall k :: 0 <= k < |ids| ==> more[..k] == ids[..k];
    assert forall k :: 0 <= k < |ids| ==> Outcome(deliver, more, k) == Outcome(deliver, ids, k);
  }

  /** The status of a list: success if any member got the message, else a temporary failure if any
      member may still get it. */
  ghost predicate SumsUp(deliver: Delivery, ids: seq<AccountId>, from: nat, status: Status) {
    status ==
    if Occurs(deliver, ids, from, Success) then Success
    else if Occurs(deliver, ids, from, TemporaryFailure) then TemporaryFailure
    else PermanentFailure
  }

  /** The result of a recorded command: `done` are the deliveries made before, and `ids` all of them
      up to and including its own. */
  ghost predicate IsResult(deliver: Delivery, r: Rcpt, done: seq<AccountId>, ids: seq<AccountId>, result: Rcpt) {
    match r
    case Mailbox(id, Duplicated) =>
      && result.Mailbox? && result.id == id
      && exists k :: 0 <= k < |done| && done[k] == id && result.status == Outcome(deliver, done, k)
    case Mailbox(id, _) => result == Mailbox(id, deliver(done, id))
    case MailingList(list, Duplicated) => result == MailingList(list, Success)
    case MailingList(list, _) =>
      result.MailingList? && result.ids == list && SumsUp(deliver, ids, |done|, result.status)
  }

  /** Earlier outcomes by account. */
  ghost predicate Remembers(deliver: Delivery, ids: seq<AccountId>, previous: map<AccountId, Status>) {
    && (forall id :: id in previous <==> id in ids)
    && forall k :: 0 <= k < |ids| ==> ids[k] in previous && previous[ids[k]] == Outcome(deliver, ids, k)
  }

  lemma RememberOne(deliver: Delivery, ids: seq<AccountId>, previous: map<AccountId, Status>, id: AccountId)
    requires Remembers(deliver, ids, previous) && id !in ids
    ensures Remembers(deliver, ids + [id], previous[id := deliver(ids, id)])
  {
    var more := ids + [id];
    assert forall x :: x in more <==> x in ids || x == id;
    forall k | 0 <= k < |more| ensures previous[id := deliver(ids, id)][more[k]] == Outcome(deliver, more, k) {
      if k < |ids| {
        assert more[..k] == ids[..k] && more[k] in ids;
      } else {
        assert more[..k] == ids;
      }
    }
  }

  /** Delivers to the members of a list and sums up the outcomes. */
  method DeliverToList(deliver: Delivery, list: seq<AccountId>, done: seq<AccountId>, previous0: map<AccountId, Status>)
    returns (status: Status, ids: seq<AccountId>, previous: map<AccountId, Status>)
    requires NoRepeats(done + list) && Remembers(deliver, done, previous0)
    ensures ids == done + list && Remembers(deliver, ids, previous) && SumsUp(deliver, ids, |done|, status)
  {
    var success, temporary := 0, 0;
    ids, previous := done, previous0;
    for i := 0 to |list|
      invariant ids == done + list[..i] && Remembers(deliver, ids, previous)
      invariant success >= 0 && temporary >= 0
      invariant success > 0 <==> Occurs(deliver, ids, |done|, Success)
      invariant temporary > 0 <==> Occurs(deliver, ids, |done|, TemporaryFailure)
    {
      NotYet(done, list, i);
      RememberOne(deliver, ids, previous, list[i]);
      OccursNext(deliver, ids, list[i], |done|, Success);
      OccursNext(deliver, ids, list[i], |done|, TemporaryFailure);
      var outcome := deliver(ids, list[i]);
      previous := previous[list[i] := outcome];
      assert list[..i + 1] == list[..i] + [list[i]];
      ids := ids + [list[i]];
      if outcome == Success {
        success := success + 1;
      } else if outcome == TemporaryFailure {
        temporary := temporary + 1;
      }
    }
    assert list[..|list|] == list;
    status := if success > 0 then Success else if temporary > 0 then TemporaryFailure else PermanentFailure;
  }

  lemma NotYet(done: seq<AccountId>, list: seq<AccountId>, i: nat)
    requires i < |list| && NoRepeats(done + list)
    ensures list[i] !in done + list[..i]
  {
    var all := done + list;
    assert all[|done| + i] == list[i];
    assert forall k :: 0 <= k < |done| + i ==> (done + list[..i])[k] == all[k];
  }

  /** Every recorded command has its result. */
  ghost predicate AreResults(deliver: Delivery, rcpts: seq<Rcpt>, n: nat, results: seq<Rcpt>)
    requires n <= |rcpts|
  {
    && |results| == n
    && forall i :: 0 <= i < n ==>
       IsResult(deliver, rcpts[i], AllTargets(rcpts[..i]), AllTargets(rcpts[..i + 1]), results[i])
  }

  lemma {:induction false} TargetsGrow(rcpts: seq<Rcpt>, n: nat)
    requires n <= |rcpts|
    ensures AllTargets(rcpts[..n]) <= AllTargets(rcpts)
    decreases |rcpts|
  {
    if n < |rcpts| {
      assert rcpts[..|rcpts| - 1][..n] == rcpts[..n];
      TargetsGrow(rcpts[..|rcpts| - 1], n);
    } else {
      assert rcpts[..n] == rcpts;
    }
  }

  lemma NextTargets(rcpts: seq<Rcpt>, n: nat)
    requires n < |rcpts| && NoRepeats(AllTargets(rcpts))
    ensures AllTargets(rcpts[..n + 1]) == AllTargets(rcpts[..n]) + Targets(rcpts[n])
    ensures NoRepeats(AllTargets(rcpts[..n]) + Targets(rcpts[n]))
  {
    assert rcpts[..n + 1][..n] == rcpts[..n];
    TargetsGrow(rcpts, n + 1);
    var part, all := AllTargets(rcpts[..n + 1]), AllTargets(rcpts);
    assert forall k :: 0 <= k < |part| ==> part[k] == all[k];
  }

  /** The result of one recorded command. */
  method IngestOne(deliver: Delivery, r: Rcpt, done: seq<AccountId>, previous0: map<AccountId, Status>)
    returns (result: Rcpt, ids: seq<AccountId>, previous: map<AccountId, Status>)
    requires NoRepeats(done + Targets(r)) && Remembers(deliver, done, previous0)
    requires r.Mailbox? && r.status == Duplicated ==> r.id in done
    ensures ids == done + Targets(r) && Remembers(deliver, ids, previous)
    ensures IsResult(deliver, r, done, ids, result)
  {
    match r {
      case Mailbox(id, status) =>
        if status != Duplicated {
          NotYet(done, [id], 0);
          assert done + [id][..0] == done;
          RememberOne(deliver, done, previous0, id);
          var outcome := deliver(done, id);
          result, ids, previous := Mailbox(id, outcome), done + [id], previous0[id := outcome];
        } else {
          ghost var k :| 0 <= k < |done| && done[k] == id;
          result := Mailbox(id, if id in previous0 then previous0[id] else Success);
          ids, previous := done, previous0;
        }
      case MailingList(list, status) =>
        if status != Duplicated {
          var outcome;
          outcome, ids, previous := DeliverToList(deliver, list, done, previous0);
          result := MailingList(list, outcome);
        } else {
          result, ids, previous := MailingList(list, Success), done, previous0;
        }
    }
  }

  /** `mail_ingest`: delivers the message to the recipients of a transaction. */
  method Ingest(deliver: Delivery, rcpts: seq<Rcpt>) returns (results: seq<Rcpt>, deliveries: seq<AccountId>)
    requires Consistent(rcpts, AccountSet(AllTargets(rcpts)))
    ensures deliveries == AllTargets(rcpts) && NoRepeats(deliveries)
    ensures AreResults(deliver, rcpts, |rcpts|, results)
  {
    var previous: map<AccountId, Status> := map[];
    results, deliveries := [], [];
    for i := 0 to |rcpts|
      invariant deliveries == AllTargets(rcpts[..i]) && Remembers(deliver, deliveries, previous)
      invariant AreResults(deliver, rcpts, i, results)
    {
      NextTargets(rcpts, i);
      var result, ids, more := IngestOne(deliver, rcpts[i], deliveries, previous);
      results, deliveries, previous := results + [result], ids, more;
    }
    assert rcpts[..|rcpts|] == rcpts;
  }

  /** One reply line for every result; a status that is still "duplicated" would get none. */
  method Reply(results: seq<Rcpt>) returns (lines: seq<Status>)
    requires forall r :: r in results ==> r.status != Duplicated
    ensures |lines| == |results| && forall i :: 0 <= i < |results| ==> lines[i] == results[i].status
  {
    lines := [];
    for i := 0 to |results|
      invariant |lines| == i && forall k :: 0 <= k < i ==> lines[k] == results[k].status
    {
      assert results[i] in results;
      if results[i].status != Duplicated {
        lines := lines + [results[i].status];
      }
    }
  }

  lemma ResultsAreFinal(deliver: Delivery, rcpts: seq<Rcpt>, results: seq<Rcpt>)
    requires NeverDuplicated(deliver) && AreResults(deliver, rcpts, |rcpts|, results)
    ensures forall r :: r in results ==> r.status != Duplicated
  {
    forall r | r in results ensures r.status != Duplicated {
      var i :| 0 <= i < |results| && results[i] == r;
      assert IsResult(deliver, rcpts[i], AllTargets(rcpts[..i]), AllTargets(rcpts[..i + 1]), results[i]);
    }
  }

  function AllAccounts(recipients: seq<Recipient>): set<AccountId> {
    if recipients == [] then {}
    else AllAccounts(recipients[..|recipients| - 1]) + AccountSet(Accounts(recipients[|recipients| - 1]))
  }

  /** The records of the accepted commands, in order. */
  function Records(recipients: seq<Recipient>): seq<Rcpt> {
    if recipients == [] then []
    else
      var front, r := recipients[..|recipients| - 1], recipients[|recipients| - 1];
      Records(front) + if IsAccepted(r) then [Record(AllAccounts(front), r)] else []
  }

  /** A whole transaction, for every sequence of RCPT commands and every behaviour of the store: the
      message is delivered exactly once to each account named, and every accepted command gets
      exactly one reply line, in order: the outcome of its own delivery, for a repeated individual
      recipient that of the account's earlier delivery, and for a list a summary. */
  method Transaction(recipients: seq<Recipient>, deliver: Delivery)
    returns (lines: seq<Status>, deliveries: seq<AccountId>, rcpts: seq<Rcpt>, results: seq<Rcpt>)
    requires NeverDuplicated(deliver)
    ensures NoRepeats(deliveries) && AccountSet(deliveries) == AllAccounts(recipients)
    ensures rcpts == Records(recipients) && AreResults(deliver, rcpts, |rcpts|, results)
    ensures |lines| == |results| && forall i :: 0 <= i < |results| ==> lines[i] == results[i].status
  {
    var session := new Session();
    for i := 0 to |recipients|
      invariant session.Valid() && session.rcptToDup == AllAccounts(recipients[..i])
      invariant session.rcptTo == Records(recipients[..i])
    {
      assert recipients[..i + 1][..i] == recipients[..i];
      var accepted := session.Receive(recipients[i]);
    }
    assert recipients[..|recipients|] == recipients;
    rcpts := session.rcptTo;
    results, deliveries := Ingest(deliver, rcpts);
    ResultsAreFinal(deliver, rcpts, results);
    lines := Reply(results);
  }

  // ----- What the reply for a list says

  lemma {:induction false} RecordsAreConsistent(recipients: seq<Recipient>)
    ensures Consistent(Records(recipients), AllAccounts(recipients))
    decreases |recipients|
  {
    if recipients != [] {
      var front, r := recipients[..|recipients| - 1], recipients[|recipients| - 1];
      RecordsAreConsistent(front);
      if IsAccepted(r) {
        RecordKeepsValid(Records(front), AllAccounts(front), r);
      } else {
        assert AllAccounts(recipients) == AllAccounts(front) && Records(recipients) == Records(front);
      }
    }
  }

  /** Some member of a list had this outcome. */
  ghost predicate Got(deliver: Delivery, deliveries: seq<AccountId>, members: seq<AccountId>, status: Status) {
    exists k :: 0 <= k < |deliveries| && deliveries[k] in members && Outcome(deliver, deliveries, k) == status
  }

  /** The status tells how all members of a list fared, whichever command made the delivery. */
  ghost predicate Reports(deliver: Delivery, deliveries: seq<AccountId>, members: seq<AccountId>, status: Status) {
    status ==
    if Got(deliver, deliveries, members, Success) then Success
    else if Got(deliver, deliveries, members, TemporaryFailure) then TemporaryFailure
    else PermanentFailure
  }

  /** `status` is the reply to a list that follows the commands in `front`. */
  ghost predicate IsReply(deliver: Delivery, front: seq<Recipient>, members: seq<AccountId>, status: Status) {
    var added, done := Unseen(AllAccounts(front), members), AllTargets(Records(front));
    IsResult(deliver, Record(AllAccounts(front), List(members)), done, done + added, MailingList(added, status))
  }

  lemma GotSplits(deliver: Delivery, done: seq<AccountId>, added: seq<AccountId>, members: seq<AccountId>,
                  status: Status)
    requires forall id :: id in added ==> id in members
    ensures Got(deliver, done + added, members, status) <==>
              Got(deliver, done, members, status) || Occurs(deliver, done + added, |done|, status)
  {
    var all := done + added;
    assert forall k :: 0 <= k < |done| ==> all[..k] == done[..k];
    assert forall k :: 0 <= k < |done| ==> Outcome(deliver, all, k) == Outcome(deliver, done, k);
    forall k | |done| <= k < |all| ensures all[k] in members {
      assert all[k] == added[k - |done|] && added[k - |done|] in added;
    }
  }

  /** When the reply for a list reports on all its members: if all were named before, when one of them got the
      message; otherwise when no member named before fared better than the others. */
  lemma ListReply(deliver: Delivery, front: seq<Recipient>, members: seq<AccountId>, status: Status)
    requires IsReply(deliver, front, members, status)
    ensures var added, done := Unseen(AllAccounts(front), members), AllTargets(Records(front));
            Reports(deliver, done + added, members, status) <==>
              if added == [] then Got(deliver, done, members, Success)
              else
                && (Got(deliver, done, members, Success) ==> status == Success)
                && (Got(deliver, done, members, TemporaryFailure) ==> status != PermanentFailure)
  {
    var added, done := Unseen(AllAccounts(front), members), AllTargets(Records(front));
    UnseenFacts(AllAccounts(front), members);
    GotSplits(deliver, done, added, members, Success);
    GotSplits(deliver, done, added, members, TemporaryFailure);
  }

  /** Accounts seen before get the message, others do not. */
  function OnlySeen(seen: set<AccountId>): Delivery {
    (before, id) => if id in seen then Success else PermanentFailure
  }

  function Nobody(): Delivery {
    (before, id) => PermanentFailure
  }

  /** A list none of whose members is new is answered with success, even if nobody gets the message. */
  lemma KnownList(front: seq<Recipient>, members: seq<AccountId>)
    requires Unseen(AllAccounts(front), members) == []
    ensures var done := AllTargets(Records(front));
            IsReply(Nobody(), front, members, Success) && !Reports(Nobody(), done, members, Success)
  {
  }

  /** A list is answered with a failure if its new members do not get the message, even if another does. */
  lemma KnownMember(front: seq<Recipient>, members: seq<AccountId>, id: AccountId)
    requires id in members && id in AllAccounts(front)
    requires Unseen(AllAccounts(front), members) != []
    ensures var deliver, added, done :=
              OnlySeen(AllAccounts(front)), Unseen(AllAccounts(front), members), AllTargets(Records(front));
            && IsReply(deliver, front, members, PermanentFailure)
            && !Reports(deliver, done + added, members, PermanentFailure)
  {
    var deliver, added, done :=
      OnlySeen(AllAccounts(front)), Unseen(AllAccounts(front), members), AllTargets(Records(front));
    RecordsAreConsistent(front);
    UnseenFacts(AllAccounts(front), members);
    var k :| 0 <= k < |done| && done[k] == id;
    assert Outcome(deliver, done, k) == Success;
    GotSplits(deliver, done, added, members, Success);
    forall j | |done| <= j < |done + added| ensures Outcome(deliver, done + added, j) == PermanentFailure {
      assert added[j - |done|] in added;
    }
  }

  /** Whatever the store does, the reply for a list reports on all its members: this holds if and only if the list
      has members and none was named before. */
  lemma ListRepliesReport(front: seq<Recipient>, members: seq<AccountId>)
    ensures var added, done := Unseen(AllAccounts(front), members), AllTargets(Records(front));
            (forall deliver, status :: NeverDuplicated(deliver) && IsReply(deliver, front, members, status) ==>
                                         Reports(deliver, done + added, members, status))
            <==> members != [] && forall id :: id in members ==> id !in AllAccounts(front)
  {
    var added, done := Unseen(AllAccounts(front), members), AllTargets(Records(front));
    RecordsAreConsistent(front);
    UnseenFacts(AllAccounts(front), members);
    if added == [] {
      KnownList(front, members);
      assert done + added == done;
      assert NeverDuplicated(Nobody());
      assert members != [] ==> members[0] in members;
    } else if id :| id in members && id in AllAccounts(front) {
      KnownMember(front, members, id);
      assert NeverDuplicated(OnlySeen(AllAccounts(front)));
    } else {
      assert added[0] in added;
      forall deliver, status | NeverDuplicated(deliver) && IsReply(deliver, front, members, status)
        ensures Reports(deliver, done + added, members, status)
      {
        ListReply(deliver, front, members, status);
      }
    }
  }

  /** The reply in question is the one of a transaction. */
  lemma ReplyOfList(deliver: Delivery, recipients: seq<Recipient>, n: nat, results: seq<Rcpt>)
    requires n < |recipients| && recipients[n].List?
    requires AreResults(deliver, Records(recipients), |Records(recipients)|, results)
    ensures var i := |Records(recipients[..n])|;
            i < |results| && IsReply(deliver, recipients[..n], recipients[n].ids, results[i].status)
  {
    var front, members := recipients[..n], recipients[n].ids;
    var records, i := Records(recipients), |Records(front)|;
    RecordsGrow(recipients, n + 1);
    RecordsGrow(recipients, n);
    assert recipients[..n + 1][..n] == front;
    var record := Record(AllAccounts(front), List(members));
    assert Records(recipients[..n + 1]) == Records(front) + [record];
    assert records[..i] == Records(front) && records[..i + 1] == Records(front) + [record];
    assert records[i] == records[..i + 1][i] == record;
    assert IsResult(deliver, records[i], AllTargets(records[..i]), AllTargets(records[..i + 1]), results[i]);
    assert (Records(front) + [record])[..i] == Records(front);
  }

  lemma {:induction false} RecordsGrow(recipients: seq<Recipient>, n: nat)
    requires n <= |recipients|
    ensures Records(recipients[..n]) <= Records(recipients)
    decreases |recipients|
  {
    if n < |recipients| {
      assert recipients[..|recipients| - 1][..n] == recipients[..n];
      RecordsGrow(recipients[..|recipients| - 1], n);
    } else {
      assert recipients[..n] == recipients;
    }
  }
}

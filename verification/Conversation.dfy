/** The conversation of a leader process with one follower: two state machines in lock-step, with
    lost requests, lost replies and re-following, and with requests that arrive after the leader
    has given them up. What the data decide is left open here; the order of the states is what is
    proved. */
module Conversation {

  datatype LeaderState =
    | BecomeLeader
    | Synchronize
    | Merge
    | AppendLogs(hasPending: bool)
    | AppendChanges(isRollback: bool)
    | AppendBlobs(left: nat)
    | Wait
    | Ended

  /** Log indexes are counted from zero, and -1 stands for "no entry". */
  datatype Leader = Leader(state: LeaderState, followerLast: int, uncommitted: int)

  datatype FollowerState =
    | Synchronizing
    | ReceivingEntries
    | ReceivingChanges
    | ReceivingBlobs(eof: bool)
    | RollingBack

  datatype Kind = LogRecords | Documents | Blobs

  datatype Request =
    | BecomeFollower
    | MatchTerms
    | MergeAt
    | Update(kind: Kind, isEmpty: bool, eof: bool)
    | AdvanceCommitIndex

  datatype Reply =
    | Lost
    | Unregistered
    | StepDown
    | Matched(index: int, isExact: bool)
    | Terms
    | Fetch(isRollback: bool)
    | FetchBlobs(count: nat)
    | Continue
    | Done(upTo: int)

  // ----- The leader process

  /** One turn of the leader loop up to the request it sends. */
  ghost predicate Sends(l: Leader, l': Leader, r: Request) {
    match l.state
    case BecomeLeader => r == BecomeFollower && l' == l
    case Synchronize => r == MatchTerms && l' == l
    case Merge => r == MergeAt && l' == l
    case AppendLogs(hasPending) =>
      if l.followerLast > l.uncommitted then
        // There is no entry after the one that the follower has.
        r == Update(LogRecords, true, false) && l' == l
      else if hasPending || l.followerLast != l.uncommitted then
        // A batch of the log: it ends with the marker exactly if nothing is left.
        && r.Update? && r.kind == LogRecords && l'.state.AppendLogs? && l'.uncommitted == l.uncommitted
        && l.followerLast <= l'.followerLast <= l.uncommitted
        && (r.eof <==> l'.followerLast == l.uncommitted && !l'.state.hasPending)
        && (r.eof ==> !r.isEmpty)
      else r == AdvanceCommitIndex && l' == l.(state := Wait)
    case AppendChanges(isRollback) =>
      // Every answer is closed by the marker; there is none if nothing was asked for.
      r.Update? && r.kind == Documents && r.eof == !r.isEmpty && l' == l
    case AppendBlobs(left) =>
      if left == 0 then false
      else
        && r.Update? && r.kind == Blobs && !r.isEmpty && !r.eof
        && exists n: nat :: n < left && l' == l.(state := AppendBlobs(n))
    case Wait => false
    case Ended => false
  }

  /** The turns in which the leader sends nothing: new log indexes, and the end of the process. */
  ghost predicate Idles(l: Leader, l': Leader) {
    || (l.state != Ended && l.uncommitted <= l'.uncommitted && 0 <= l'.uncommitted && l'.followerLast == l.followerLast
        && l'.state == if l.state == Wait then AppendLogs(false) else l.state)
    || l' == l.(state := Ended)
  }

  ghost predicate Receives(l: Leader, r: Reply, l': Leader) {
    match r
    case Lost => l' == l.(state := BecomeLeader)
    case Unregistered => l' == l.(state := BecomeLeader)
    case StepDown => l' == l.(state := Ended)
    case Matched(index, isExact) =>
      if index == -1 then l' == Leader(if l.uncommitted != -1 then AppendLogs(false) else Wait, -1, l.uncommitted)
      else if isExact then l' == Leader(AppendLogs(false), index, l.uncommitted)
      else l' == Leader(Synchronize, index, l.uncommitted)
    case Terms =>
      || l' == l.(state := BecomeLeader)
      || exists index: int :: index >= -1 && l' == Leader(Merge, index, l.uncommitted)
    case Fetch(isRollback) => l' == l.(state := AppendChanges(isRollback))
    case FetchBlobs(count) => l' == l.(state := AppendBlobs(count))
    case Continue => l' == l
    case Done(upTo) => l' == l.(state := if upTo != l.uncommitted then AppendLogs(false) else Wait)
  }

  // ----- The follower process

  /** The request meets an arm of the follower loop other than the last. */
  predicate IsExpected(f: FollowerState, r: Request) {
    match r
    case BecomeFollower => f == Synchronizing || f == RollingBack
    case MatchTerms => f == Synchronizing || f == RollingBack
    case MergeAt => f == Synchronizing || f == RollingBack
    case Update(_, _, _) => true
    case AdvanceCommitIndex => true
  }

  /** The updates are of the kind that the follower's state handles. */
  predicate IsRightKind(f: FollowerState, r: Request) {
    r.Update? ==>
      match f
      case Synchronizing => r.kind == LogRecords
      case ReceivingEntries => r.kind == LogRecords
      case ReceivingChanges => r.kind == Documents
      case ReceivingBlobs(_) => r.kind == Blobs
      case RollingBack => r.kind == Documents
  }

  ghost predicate GoesOn(f': FollowerState, r: Reply) {
    || (f' == ReceivingChanges && r == Fetch(false))
    || (f' == Synchronizing && r.Done?)
  }

  ghost predicate RollsBack(f': FollowerState, r: Reply) {
    || (f' == RollingBack && r == Fetch(true))
    || (f' == Synchronizing && r.Matched? && r.index >= 0)
  }

  ghost predicate StoresPending(eof: bool, isEmpty: bool, f': FollowerState, r: Reply) {
    if eof || isEmpty then GoesOn(f', r) else f' == ReceivingChanges && r == Continue
  }

  /** A follower process in state `f` may answer the request with `r` and then be in `f'`. */
  ghost predicate Answers(f: FollowerState, q: Request, f': FollowerState, r: Reply)
    requires IsExpected(f, q)
  {
    if q == AdvanceCommitIndex then f' == f && r.Done?
    else if f == RollingBack then
      if q.Update? && !q.isEmpty && !q.eof then f' == RollingBack && r == Continue else RollsBack(f', r)
    else
      match q
      case BecomeFollower => f' == Synchronizing && r.Matched? && r.index >= -1
      case MatchTerms => f' == Synchronizing && r == Terms
      case MergeAt => RollsBack(f', r)
      case Update(_, isEmpty, eof) =>
        (match f
         case Synchronizing => if eof || isEmpty then GoesOn(f', r) else f' == ReceivingEntries && r == Continue
         case ReceivingEntries => if eof || isEmpty then GoesOn(f', r) else f' == ReceivingEntries && r == Continue
         case ReceivingChanges =>
           || (f' == ReceivingBlobs(eof || isEmpty) && r.FetchBlobs? && r.count > 0)
           || StoresPending(eof, isEmpty, f', r)
         case ReceivingBlobs(held) =>
           || (f' == f && r == Continue)
           || StoresPending(held, false, f', r))
  }

  // ----- The two together

  datatype Process = NotFollowing | Following(state: FollowerState)

  datatype Fault = NoFault | ReachedUnreachable | WrongUpdates | EarlyCommit

  /** `late` holds the requests that the leader has given up and that may still arrive. */
  datatype System = System(leader: Leader, process: Process, fault: Fault, late: multiset<Request>)

  function Judge(f: FollowerState, q: Request): Fault {
    if !IsExpected(f, q) then ReachedUnreachable
    else if !IsRightKind(f, q) then WrongUpdates
    else if q == AdvanceCommitIndex && f != Synchronizing then EarlyCommit
    else NoFault
  }

  /** An exact match is an entry that the leader has found in its own log. */
  predicate IsPlausible(l: Leader, r: Reply) {
    r.Matched? && r.isExact ==> r.index <= l.uncommitted
  }

  /** A delivered request: asking to follow starts a new process, which waits for the leader or has
      a rollback to resume; without a process the leader is told to step down, or is not known. */
  ghost predicate Delivered(s: System, q: Request, s': System, r: Reply) {
    if q == BecomeFollower then
      || (s' == s && (r == StepDown || r == Unregistered))
      || (exists f, f' :: Started(f, q, f', r) && IsPlausible(s.leader, r) && s' == s.(process := Following(f')))
      || (s' == s.(process := NotFollowing) && r == Lost)
    else
      match s.process
      case NotFollowing => s' == s && r == StepDown
      case Following(f) =>
        var fault := Judge(f, q);
        if fault != NoFault then s' == s.(fault := fault) && r == Lost
        else
          || (exists f' :: Answers(f, q, f', r) && IsPlausible(s.leader, r) && s' == s.(process := Following(f')))
          || (s' == s.(process := NotFollowing) && r == Lost)
  }

  ghost predicate Started(f: FollowerState, q: Request, f': FollowerState, r: Reply) {
    (f == Synchronizing || f == RollingBack) && IsExpected(f, q) && Answers(f, q, f', r)
  }

  ghost predicate Init(s: System) {
    && s.leader.state == BecomeLeader && s.leader.followerLast >= -1 && s.leader.uncommitted >= -1
    && s.fault == NoFault && s.late == multiset{}
  }

  /** A step in which no request is overtaken. */
  ghost predicate LockStep(s: System, s': System) {
    || Idle(s, s')
    || (exists l1, q :: Drop(s, l1, q, s'))
    || (exists l1, q, mid, r, r' :: Turn(s, l1, q, mid, r, r', s'))
  }

  /** Nothing is sent, or the follower goes over to another leader. */
  ghost predicate Idle(s: System, s': System) {
    || (Idles(s.leader, s'.leader) && s' == s.(leader := s'.leader))
    || s' == s.(process := NotFollowing)
  }

  /** The leader gives a request up; it may still be on its way. */
  ghost predicate Drop(s: System, l1: Leader, q: Request, s': System) {
    && Sends(s.leader, l1, q) && Receives(l1, Lost, s'.leader)
    && s' == s.(leader := s'.leader, late := s.late + multiset{q})
  }

  /** The request arrives; its reply does or does not. */
  ghost predicate Turn(s: System, l1: Leader, q: Request, mid: System, r: Reply, r': Reply, s': System) {
    && Sends(s.leader, l1, q)
    && Delivered(s.(leader := l1), q, mid, r) && (r' == r || r' == Lost)
    && Receives(l1, r', s'.leader) && s' == mid.(leader := s'.leader)
  }

  /** A request arrives that was given up; nobody waits for its reply. */
  ghost predicate Arrives(s: System, q: Request, s': System) {
    q in s.late && exists r :: Delivered(s.(late := s.late - multiset{q}), q, s', r)
  }

  ghost predicate Next(s: System, s': System) {
    LockStep(s, s') || exists q :: Arrives(s, q, s')
  }

  /** The follower has met a request that its state does not expect, updates of the wrong kind, or
      a commit in the middle of a round; or the leader is about to ask for log records without
      having an entry. */
  predicate IsBad(s: System) {
    s.fault != NoFault || (s.leader.state.AppendLogs? && s.leader.uncommitted < 0)
  }

  // ----- Which states go together

  predicate LeaderOk(l: Leader) {
    && l.followerLast >= -1 && l.uncommitted >= -1
    && (l.state == AppendLogs(true) ==> l.followerLast <= l.uncommitted)
    && (l.state.AppendLogs? || l.state == AppendChanges(false) || l.state.AppendBlobs? ==> l.uncommitted >= 0)
  }

  /** The states of the follower from which no fault can come while the leader goes on from `l`. */
  predicate Fits(l: Leader, f: FollowerState) {
    match l.state
    case BecomeLeader => true
    case Ended => true
    case Synchronize => f == Synchronizing || f == RollingBack
    case Merge => f == Synchronizing || f == RollingBack
    case Wait => f == Synchronizing || (f == ReceivingEntries && (l.followerLast < l.uncommitted || l.followerLast < 0))
    case AppendLogs(hasPending) =>
      f == Synchronizing || (f == ReceivingEntries && (hasPending || l.followerLast < l.uncommitted))
    case AppendChanges(isRollback) => f == RollingBack || (f == ReceivingChanges && l.uncommitted >= 0)
    case AppendBlobs(left) => left == 0 || (f.ReceivingBlobs? && (f.eof || left == 1))
  }

  predicate IsSafe(s: System) {
    s.fault == NoFault && LeaderOk(s.leader) && (s.process.Following? ==> Fits(s.leader, s.process.state))
  }

  lemma TurnKeepsSafe(s: System, l1: Leader, q: Request, mid: System, r: Reply, r': Reply, s': System)
    requires IsSafe(s) && Turn(s, l1, q, mid, r, r', s')
    ensures IsSafe(s')
  {
    if q == BecomeFollower {
      assert s.leader.state == BecomeLeader;
    }
  }

  lemma LockStepKeepsSafe(s: System, s': System)
    requires IsSafe(s) && LockStep(s, s')
    ensures IsSafe(s')
  {
    if exists l1, q, mid, r, r' :: Turn(s, l1, q, mid, r, r', s') {
      var l1, q, mid, r, r' :| Turn(s, l1, q, mid, r, r', s');
      TurnKeepsSafe(s, l1, q, mid, r, r', s');
    }
  }

  // ----- Lock-step alone

  ghost predicate IsLockRun(run: seq<System>) {
    run != [] && forall i :: 0 <= i < |run| - 1 ==> LockStep(run[i], run[i + 1])
  }

  /** Lock-step alone can lead from `s` to a bad state. */
  ghost predicate CanFail(s: System) {
    exists run :: IsLockRun(run) && run[0] == s && IsBad(run[|run| - 1])
  }

  lemma {:induction false} LockRunIsSafe(run: seq<System>, n: nat)
    requires IsLockRun(run) && IsSafe(run[0]) && n < |run|
    ensures IsSafe(run[n]) && !IsBad(run[n])
    decreases n
  {
    if n > 0 {
      LockRunIsSafe(run, n - 1);
      LockStepKeepsSafe(run[n - 1], run[n]);
    }
  }

  lemma FailsAtOnce(s: System)
    requires IsBad(s)
    ensures CanFail(s)
  {
    assert IsLockRun([s]);
  }

  lemma FailsNext(s: System, s': System)
    requires LockStep(s, s') && CanFail(s')
    ensures CanFail(s)
  {
    var run :| IsLockRun(run) && run[0] == s' && IsBad(run[|run| - 1]);
    assert IsLockRun([s] + run);
  }

  /** The next request meets a state that it does not fit. */
  lemma FailsByRequest(s: System, l1: Leader, q: Request)
    requires Sends(s.leader, l1, q) && q != BecomeFollower && s.process.Following?
             && Judge(s.process.state, q) != NoFault
    ensures CanFail(s)
  {
    var mid := s.(leader := l1, fault := Judge(s.process.state, q));
    var s' := mid.(leader := l1.(state := BecomeLeader));
    assert Turn(s, l1, q, mid, Lost, Lost, s');
    FailsAtOnce(s');
    FailsNext(s, s');
  }

  lemma FailsAfterIdle(s: System, l': Leader)
    requires Idles(s.leader, l') && CanFail(s.(leader := l'))
    ensures CanFail(s)
  {
    FailsNext(s, s.(leader := l'));
  }

  lemma LogsFail(s: System)
    requires LeaderOk(s.leader) && s.leader.state.AppendLogs? && s.process.Following?
             && !Fits(s.leader, s.process.state)
    ensures CanFail(s)
  {
    var l, f := s.leader, s.process.state;
    if l.followerLast > l.uncommitted {
      if f == ReceivingEntries {
        var l' := l.(uncommitted := l.followerLast);
        FailsByRequest(s.(leader := l'), l'.(state := Wait), AdvanceCommitIndex);
        FailsAfterIdle(s, l');
      } else {
        FailsByRequest(s, l, Update(LogRecords, true, false));
      }
    } else if l.state.hasPending || l.followerLast != l.uncommitted {
      FailsByRequest(s, Leader(AppendLogs(false), l.uncommitted, l.uncommitted), Update(LogRecords, false, true));
    } else {
      FailsByRequest(s, l.(state := Wait), AdvanceCommitIndex);
    }
  }

  lemma DocumentsFail(s: System)
    requires LeaderOk(s.leader) && s.leader.state.AppendChanges? && s.process.Following?
             && !Fits(s.leader, s.process.state)
    ensures CanFail(s)
  {
    var l, q := s.leader, Update(Documents, true, false);
    if s.process.state == ReceivingChanges {
      var s' := s.(leader := l.(state := AppendLogs(false)), process := Following(Synchronizing));
      assert Delivered(s, q, s.(process := Following(Synchronizing)), Done(0));
      assert Turn(s, l, q, s.(process := Following(Synchronizing)), Done(0), Done(0), s');
      FailsAtOnce(s');
      FailsNext(s, s');
    } else {
      FailsByRequest(s, l, q);
    }
  }

  lemma BlobsFail(s: System)
    requires LeaderOk(s.leader) && s.leader.state.AppendBlobs? && s.process.Following?
             && !Fits(s.leader, s.process.state)
    ensures CanFail(s)
  {
    var l, q := s.leader, Update(Blobs, false, false);
    var left: nat := l.state.left - 1;
    var l1 := l.(state := AppendBlobs(left));
    assert Sends(l, l1, q);
    if s.process.state.ReceivingBlobs? {
      var s' := s.(leader := l1, process := Following(ReceivingChanges));
      assert Delivered(s.(leader := l1), q, s', Continue);
      assert Turn(s, l1, q, s', Continue, Continue, s');
      var none: nat := 0;
      assert Sends(l1, l1.(state := AppendBlobs(none)), q);
      FailsByRequest(s', l1.(state := AppendBlobs(none)), q);
      FailsNext(s, s');
    } else {
      FailsByRequest(s, l1, q);
    }
  }

  lemma WaitFails(s: System)
    requires LeaderOk(s.leader) && s.leader.state == Wait && s.process.Following? && !Fits(s.leader, s.process.state)
    ensures CanFail(s)
  {
    var l := s.leader;
    var index :=
      if s.process.state == ReceivingEntries then l.followerLast
      else if l.uncommitted < 0 then 0
      else l.uncommitted;
    var l' := l.(state := AppendLogs(false), uncommitted := index);
    LogsFail(s.(leader := l'));
    FailsAfterIdle(s, l');
  }

  /** Exactly the safe states are those from which lock-step cannot fail. */
  lemma SafeIsExact(s: System)
    requires LeaderOk(s.leader)
    ensures CanFail(s) <==> !IsSafe(s)
  {
    if IsSafe(s) {
      forall run | IsLockRun(run) && run[0] == s ensures !IsBad(run[|run| - 1]) {
        LockRunIsSafe(run, |run| - 1);
      }
    } else if s.fault != NoFault {
      FailsAtOnce(s);
    } else {
      match s.leader.state {
        case Synchronize => FailsByRequest(s, s.leader, MatchTerms);
        case Merge => FailsByRequest(s, s.leader, MergeAt);
        case Wait => WaitFails(s);
        case AppendLogs(_) => LogsFail(s);
        case AppendChanges(_) => DocumentsFail(s);
        case AppendBlobs(_) => BlobsFail(s);
      }
    }
  }

  // ----- Late arrivals

  /** Whatever the follower's state, the leader's next request can only be to follow anew. */
  predicate StartsOver(l: Leader) {
    l.state == BecomeLeader || l.state == Ended || l.state == AppendBlobs(0)
  }

  /** The leader expects a follower that waits for it or rolls back. */
  predicate IsOpen(l: Leader) {
    StartsOver(l) || l.state == Synchronize || l.state == Merge
  }

  /** When a late request does no harm, told from the states it meets. */
  predicate IsHarmless(l: Leader, p: Process, q: Request) {
    if q == BecomeFollower then IsOpen(l)
    else
      match p
      case NotFollowing => true
      case Following(f) =>
        Judge(f, q) == NoFault &&
        match q
        case MatchTerms => f == Synchronizing || IsOpen(l)
        case MergeAt => IsOpen(l)
        case Update(LogRecords, isEmpty, eof) => if eof || isEmpty then StartsOver(l) else Fits(l, ReceivingEntries)
        case Update(Documents, isEmpty, eof) =>
          if f == RollingBack then (!isEmpty && !eof) || IsOpen(l) else StartsOver(l)
        case Update(Blobs, _, _) => StartsOver(l)
        case AdvanceCommitIndex => true
  }

  lemma HarmlessKeepsSafe(s: System, q: Request, s': System)
    requires IsSafe(s) && Arrives(s, q, s') && IsHarmless(s.leader, s.process, q)
    ensures IsSafe(s')
  {
  }

  /** The outcome of an arrival, if the follower answers. */
  lemma Arrival(s: System, q: Request, f: FollowerState, f': FollowerState, r: Reply)
    requires q in s.late && IsPlausible(s.leader, r)
    requires if q == BecomeFollower then Started(f, q, f', r)
             else s.process == Following(f) && Judge(f, q) == NoFault && Answers(f, q, f', r)
    ensures Arrives(s, q, s.(process := Following(f'), late := s.late - multiset{q}))
  {
    assert Delivered(s.(late := s.late - multiset{q}), q,
                     s.(process := Following(f'), late := s.late - multiset{q}), r);
  }

  lemma Misfit(s: System, q: Request)
    requires q in s.late && q != BecomeFollower && s.process.Following? && Judge(s.process.state, q) != NoFault
    ensures Arrives(s, q, s.(fault := Judge(s.process.state, q), late := s.late - multiset{q}))
  {
    assert Delivered(s.(late := s.late - multiset{q}), q,
                     s.(fault := Judge(s.process.state, q), late := s.late - multiset{q}), Lost);
  }

  /** One of the two outcomes of resuming or starting a rollback does not fit. */
  lemma RollbackHarms(s: System, q: Request, f: FollowerState) returns (s': System)
    requires IsSafe(s) && q in s.late && !IsOpen(s.leader)
    requires if q == BecomeFollower then f == RollingBack
             else s.process == Following(f) && Judge(f, q) == NoFault &&
                  ((f == RollingBack && !(q.Update? && !q.isEmpty && !q.eof) && q != AdvanceCommitIndex)
                   || q == MergeAt)
    ensures Arrives(s, q, s') && !IsSafe(s')
  {
    if Fits(s.leader, Synchronizing) {
      Arrival(s, q, f, RollingBack, Fetch(true));
      s' := s.(process := Following(RollingBack), late := s.late - multiset{q});
    } else {
      Arrival(s, q, f, Synchronizing, Matched(0, false));
      s' := s.(process := Following(Synchronizing), late := s.late - multiset{q});
    }
  }

  /** So does one of the two outcomes of going on with a round. */
  lemma RoundHarms(s: System, q: Request, f: FollowerState) returns (s': System)
    requires IsSafe(s) && q in s.late && !StartsOver(s.leader) && s.process == Following(f)
    requires q.Update? && Judge(f, q) == NoFault && f != RollingBack
    requires q.kind == LogRecords ==> q.eof || q.isEmpty
    ensures Arrives(s, q, s') && !IsSafe(s')
  {
    var held := if f.ReceivingBlobs? then f.eof else q.eof || q.isEmpty;
    if !held {
      Arrival(s, q, f, ReceivingChanges, Continue);
      s' := s.(process := Following(ReceivingChanges), late := s.late - multiset{q});
      if Fits(s.leader, ReceivingChanges) {
        Arrival(s, q, f, ReceivingBlobs(false), FetchBlobs(1));
        s' := s.(process := Following(ReceivingBlobs(false)), late := s.late - multiset{q});
      }
    } else if Fits(s.leader, Synchronizing) {
      Arrival(s, q, f, ReceivingChanges, Fetch(false));
      s' := s.(process := Following(ReceivingChanges), late := s.late - multiset{q});
    } else {
      Arrival(s, q, f, Synchronizing, Done(0));
      s' := s.(process := Following(Synchronizing), late := s.late - multiset{q});
    }
  }

  lemma HarmfulArrival(s: System, q: Request) returns (s': System)
    requires IsSafe(s) && q in s.late && !IsHarmless(s.leader, s.process, q)
    ensures Arrives(s, q, s') && !IsSafe(s')
  {
    if q == BecomeFollower {
      s' := RollbackHarms(s, q, RollingBack);
    } else {
      var f := s.process.state;
      if Judge(f, q) != NoFault {
        Misfit(s, q);
        s' := s.(fault := Judge(f, q), late := s.late - multiset{q});
      } else if f == RollingBack || q == MergeAt {
        s' := RollbackHarms(s, q, f);
      } else if q.kind == LogRecords && !q.eof && !q.isEmpty {
        Arrival(s, q, f, ReceivingEntries, Continue);
        s' := s.(process := Following(ReceivingEntries), late := s.late - multiset{q});
      } else {
        s' := RoundHarms(s, q, f);
      }
    }
  }

  /** Exactly the harmless requests may arrive late at any safe moment: then lock-step alone cannot
      fail afterwards, whatever the follower answers. */
  lemma LateArrivals(s: System, q: Request)
    requires IsSafe(s) && q in s.late
    ensures IsHarmless(s.leader, s.process, q) <==> forall s' :: Arrives(s, q, s') ==> !CanFail(s')
  {
    if IsHarmless(s.leader, s.process, q) {
      forall s' | Arrives(s, q, s') ensures !CanFail(s') {
        HarmlessKeepsSafe(s, q, s');
        SafeIsExact(s');
      }
    } else {
      var s' := HarmfulArrival(s, q);
      SafeIsExact(s');
    }
  }

  // ----- Every run

  ghost predicate IsRun(run: seq<System>) {
    && run != [] && Init(run[0])
    && forall i :: 0 <= i < |run| - 1 ==> Next(run[i], run[i + 1])
  }

  /** Every request that arrives late in the run is harmless at that moment. */
  ghost predicate ArrivalsAreHarmless(run: seq<System>) {
    forall i, q :: 0 <= i < |run| - 1 && Arrives(run[i], q, run[i + 1]) && !LockStep(run[i], run[i + 1]) ==>
      IsHarmless(run[i].leader, run[i].process, q)
  }

  /** Protocol compatibility: in every run whose late arrivals, if there are any, are harmless, at
      every moment, the follower has never met a request that its state does not expect, nor updates
      of the wrong kind, nor a commit in the middle of a round; and the leader never asks for log
      records without having an entry. */
  lemma {:induction false} NoFaultInAnyRun(run: seq<System>)
    requires IsRun(run) && ArrivalsAreHarmless(run)
    ensures forall i :: 0 <= i < |run| ==> IsSafe(run[i]) && !IsBad(run[i])
  {
    var n := 0;
    while n < |run|
      invariant n <= |run| && forall i :: 0 <= i < n ==> IsSafe(run[i])
    {
      if n > 0 {
        StepKeepsSafe(run, n - 1);
      }
      n := n + 1;
    }
  }

  lemma StepKeepsSafe(run: seq<System>, i: nat)
    requires i + 1 < |run| && Next(run[i], run[i + 1]) && ArrivalsAreHarmless(run) && IsSafe(run[i])
    ensures IsSafe(run[i + 1])
  {
    if LockStep(run[i], run[i + 1]) {
      LockStepKeepsSafe(run[i], run[i + 1]);
    } else {
      var q :| Arrives(run[i], q, run[i + 1]);
      HarmlessKeepsSafe(run[i], q, run[i + 1]);
    }
  }

  // ----- Arrivals that do harm

  /** A turn whose reply arrives is a step. */
  lemma ByTurn(s: System, l1: Leader, q: Request, f': FollowerState, r: Reply, l': Leader)
    requires Sends(s.leader, l1, q) && Receives(l1, r, l') && IsPlausible(l1, r)
    requires if q == BecomeFollower then Started(Synchronizing, q, f', r)
             else s.process.Following? && Judge(s.process.state, q) == NoFault && Answers(s.process.state, q, f', r)
    ensures LockStep(s, s.(leader := l', process := Following(f')))
  {
    var mid := s.(leader := l1, process := Following(f'));
    assert Delivered(s.(leader := l1), q, mid, r);
    assert Turn(s, l1, q, mid, r, r, s.(leader := l', process := Following(f')));
  }

  lemma LongerRun(run: seq<System>, s: System)
    requires IsRun(run) && Next(run[|run| - 1], s)
    ensures IsRun(run + [s])
  {
  }

  /** The beginning of both runs below: a follower whose log does not match is asked to wait. */
  lemma AskedToMatch() returns (run: seq<System>, asked: System)
    ensures IsRun(run) && run[|run| - 1] == asked
    ensures asked == System(Leader(Synchronize, 2, 3), Following(Synchronizing), NoFault, multiset{})
  {
    var start := System(Leader(BecomeLeader, -1, 3), NotFollowing, NoFault, multiset{});
    asked := System(Leader(Synchronize, 2, 3), Following(Synchronizing), NoFault, multiset{});
    ByTurn(start, start.leader, BecomeFollower, Synchronizing, Matched(2, false), asked.leader);
    run := [start, asked];
  }

  /** A request is given up, and the leader asks the follower anew, which now matches. */
  lemma GivenUp(s: System, q: Request) returns (again: System, matched: System)
    requires Sends(s.leader, s.leader, q) && s.fault == NoFault && s.leader.uncommitted == 3 && s.late == multiset{}
    ensures Next(s, again) && Next(again, matched)
    ensures matched == System(Leader(AppendLogs(false), 1, 3), Following(Synchronizing), NoFault, multiset{q})
  {
    again := s.(leader := s.leader.(state := BecomeLeader), late := s.late + multiset{q});
    assert Drop(s, s.leader, q, again);
    matched := System(Leader(AppendLogs(false), 1, 3), Following(Synchronizing), NoFault, multiset{q});
    ByTurn(again, again.leader, BecomeFollower, Synchronizing, Matched(1, true), matched.leader);
  }

  /** A request for matching terms is given up; the leader follows up anew and sends log records, and
      while the follower waits for documents the old request arrives. */
  lemma OvertakenRequest() returns (run: seq<System>)
    ensures IsRun(run) && run[|run| - 1].fault == ReachedUnreachable
  {
    var asked;
    run, asked := AskedToMatch();
    var again, matched := GivenUp(asked, MatchTerms);
    LongerRun(run, again);
    LongerRun(run + [again], matched);
    var fetching := matched.(leader := Leader(AppendChanges(false), 3, 3), process := Following(ReceivingChanges));
    var end := Overtaken(matched, fetching);
    LongerRun(run + [again] + [matched], fetching);
    run := run + [again] + [matched] + [fetching];
    LongerRun(run, end);
    run := run + [end];
  }

  lemma Overtaken(matched: System, fetching: System) returns (end: System)
    requires matched == System(Leader(AppendLogs(false), 1, 3), Following(Synchronizing), NoFault, multiset{MatchTerms})
    requires fetching == matched.(leader := Leader(AppendChanges(false), 3, 3), process := Following(ReceivingChanges))
    ensures Next(matched, fetching) && Next(fetching, end) && end.fault == ReachedUnreachable
  {
    var sent := Leader(AppendLogs(false), 3, 3);
    ByTurn(matched, sent, Update(LogRecords, false, true), ReceivingChanges, Fetch(false), fetching.leader);
    Misfit(fetching, MatchTerms);
    end := fetching.(fault := ReachedUnreachable, late := fetching.late - multiset{MatchTerms});
  }

  /** Being expected is not enough: a request to merge is given up and arrives when the follower
      waits for log records. It begins a rollback, and the log records that follow are of the wrong
      kind. */
  lemma ExpectedButHarmful() returns (run: seq<System>, i: nat)
    ensures IsRun(run) && i + 2 < |run| && Arrives(run[i], MergeAt, run[i + 1]) && run[i + 1].fault == NoFault
    ensures LockStep(run[i + 1], run[i + 2]) && run[i + 2].fault == WrongUpdates
  {
    var asked;
    run, asked := AskedToMatch();
    var merging := asked.(leader := Leader(Merge, 1, 3));
    ByTurn(asked, asked.leader, MatchTerms, Synchronizing, Terms, merging.leader);
    LongerRun(run, merging);
    var again, matched := GivenUp(merging, MergeAt);
    LongerRun(run + [merging], again);
    run := run + [merging] + [again];
    LongerRun(run, matched);
    var rolling, end := MergedLate(matched);
    LongerRun(run + [matched], rolling);
    i := |run|;
    run := run + [matched] + [rolling];
    LongerRun(run, end);
    run := run + [end];
  }

  lemma MergedLate(matched: System) returns (rolling: System, end: System)
    requires matched == System(Leader(AppendLogs(false), 1, 3), Following(Synchronizing), NoFault, multiset{MergeAt})
    ensures Arrives(matched, MergeAt, rolling) && rolling.fault == NoFault
    ensures LockStep(rolling, end) && end.fault == WrongUpdates
  {
    Arrival(matched, MergeAt, Synchronizing, RollingBack, Fetch(true));
    rolling := matched.(process := Following(RollingBack), late := matched.late - multiset{MergeAt});
    var sent, q := Leader(AppendLogs(false), 3, 3), Update(LogRecords, false, true);
    var mid := rolling.(leader := sent, fault := WrongUpdates);
    end := mid.(leader := Leader(BecomeLeader, 3, 3));
    assert Delivered(rolling.(leader := sent), q, mid, Lost);
    assert Turn(rolling, sent, q, mid, Lost, Lost, end);
  }
}

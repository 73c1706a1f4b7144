/** How a leader and a follower find the entry from which to go on: the leader's last entry is looked up in the
    follower's log, the answer in the leader's, and where they differ the first entries of each term are compared. */
module Matching {
  import opened Common
  import opened KeyOrder

  // ----- Logs

  ghost predicate HasIndex(log: set<Key>, index: nat) {
    exists k :: k in log && k.a == index
  }

  /** The keys (index, term) of a log: one entry per index, and no gaps after the first one. */
  ghost predicate IsLog(log: set<Key>) {
    && (forall k :: k in log ==> k.c == 0)
    && (forall k, k' :: k in log && k' in log && k.a == k'.a ==> k == k')
    && (forall k, k', i {:trigger k in log, k' in log, HasIndex(log, i)} ::
          k in log && k' in log && k.a <= i <= k'.a ==> HasIndex(log, i))
  }

  /** Both logs have an entry with this index, and the same entries up to there. */
  ghost predicate Agree(a: set<Key>, b: set<Key>, index: nat) {
    HasIndex(a, index) && HasIndex(b, index) && forall k: Key :: k.a <= index ==> (k in a <==> k in b)
  }

  // ----- Reading a log

  /** The last entry that is not after a key. */
  ghost predicate IsPrev(log: set<Key>, from: Key, r: Option<Key>) {
    match r
    case None => forall k :: k in log ==> Before(from, k)
    case Some(x) => x in log && !Before(from, x) && forall k :: k in log && Before(x, k) ==> Before(from, k)
  }

  /** The first entry that is not before a key. */
  ghost predicate IsNext(log: set<Key>, from: Key, r: Option<Key>) {
    match r
    case None => forall k :: k in log ==> Before(k, from)
    case Some(x) => x in log && !Before(x, from) && forall k :: k in log && Before(k, x) ==> Before(k, from)
  }

  method PrevEntry(log: set<Key>, from: Key) returns (r: Option<Key>)
    ensures IsPrev(log, from, r)
  {
    var ks := Iterate(set k | k in log && !Before(from, k));
    if ks == [] {
      assert forall k :: k in log && !Before(from, k) ==> k in ks;
      return None;
    }
    var last := ks[|ks| - 1];
    assert last in ks;
    assert forall k :: k in ks ==> k == last || Before(k, last);
    assert forall k :: k in log && Before(last, k) ==> k !in ks;
    return Some(last);
  }

  method NextEntry(log: set<Key>, from: Key) returns (r: Option<Key>)
    ensures IsNext(log, from, r)
  {
    var ks := Iterate(set k | k in log && !Before(k, from));
    if ks == [] {
      assert forall k :: k in log && !Before(k, from) ==> k in ks;
      return None;
    }
    assert ks[0] in ks;
    assert forall k :: k in ks ==> k == ks[0] || Before(ks[0], k);
    assert forall k :: k in log && Before(k, ks[0]) ==> k !in ks;
    return Some(ks[0]);
  }

  /** An entry whose term is not that of the entry before it. */
  ghost predicate IsStart(log: set<Key>, k: Key) {
    k in log && forall p :: p in log && p.a + 1 == k.a ==> p.b != k.b
  }

  ghost predicate AreStarts(log: set<Key>, starts: seq<Key>) {
    Sorted(starts) && forall k :: k in starts <==> IsStart(log, k)
  }

  /** The entries of a gap-free log follow one another. */
  lemma Consecutive(log: set<Key>, ks: seq<Key>, i: nat)
    requires IsLog(log) && IsScan(ks, log) && 0 < i < |ks|
    ensures ks[i].a == ks[i - 1].a + 1
  {
    assert ks[i - 1] in log && ks[i] in log && Before(ks[i - 1], ks[i]);
    assert HasIndex(log, ks[i - 1].a + 1);
    var k :| k in log && k.a == ks[i - 1].a + 1;
    var j :| 0 <= j < |ks| && ks[j] == k;
    assert !(j < i - 1) && !(j > i);
  }

  lemma StartIs(log: set<Key>, ks: seq<Key>, i: nat)
    requires IsLog(log) && IsScan(ks, log) && i < |ks|
    ensures IsStart(log, ks[i]) <==> i == 0 || ks[i].b != ks[i - 1].b
  {
    assert ks[i] in log;
    if i > 0 {
      Consecutive(log, ks, i);
      assert ks[i - 1] in log;
    } else {
      forall p | p in log ensures p.a + 1 != ks[0].a {
        var j :| 0 <= j < |ks| && ks[j] == p;
        assert j == 0 || Before(ks[0], p);
      }
    }
  }

  /** The starts among the first `n` entries. */
  ghost predicate StartsOf(log: set<Key>, ks: seq<Key>, n: nat, starts: seq<Key>)
    requires n <= |ks|
  {
    Sorted(starts) && forall k :: k in starts <==> k in ks[..n] && IsStart(log, k)
  }

  lemma StartsGrow(log: set<Key>, ks: seq<Key>, n: nat, starts: seq<Key>)
    requires IsLog(log) && IsScan(ks, log) && n < |ks| && StartsOf(log, ks, n, starts)
    ensures StartsOf(log, ks, n + 1, if n == 0 || ks[n].b != ks[n - 1].b then starts + [ks[n]] else starts)
  {
    StartIs(log, ks, n);
    assert ks[..n + 1] == ks[..n] + [ks[n]];
    forall k | k in starts ensures Before(k, ks[n]) {
      var j :| 0 <= j < n && ks[..n][j] == k;
      assert ks[j] == k;
    }
  }

  /** `get_raft_match_terms`: the first entry of each term. */
  method TermStarts(log: set<Key>) returns (starts: seq<Key>)
    requires IsLog(log)
    ensures AreStarts(log, starts)
  {
    var ks := Iterate(log);
    starts := [];
    var lastTerm: Option<nat> := None;
    for i := 0 to |ks|
      invariant lastTerm == if i == 0 then None else Some(ks[i - 1].b)
      invariant StartsOf(log, ks, i, starts)
    {
      StartsGrow(log, ks, i, starts);
      if lastTerm != Some(ks[i].b) {
        lastTerm := Some(ks[i].b);
        starts := starts + [ks[i]];
      }
    }
    assert ks[..|ks|] == ks;
  }

  /** `get_raft_match_indexes`: the scan goes by a prefix that contains the index, so that it finds one entry
      at most. */
  method IndexesAt(log: set<Key>, index: nat) returns (term: nat, indexes: set<nat>)
    requires IsLog(log)
    ensures indexes == if HasIndex(log, index) then {index} else {}
    ensures HasIndex(log, index) ==> Key(index, term, 0) in log
  {
    var ks := Iterate(set k | k in log && !Before(k, Key(index, 0, 0)));
    term, indexes := 0, {};
    if HasIndex(log, index) {
      ghost var k :| k in log && k.a == index;
      assert k in ks && ks[0] in ks;
      assert k == ks[0] || Before(ks[0], k);
      assert ks[0].a == index;
    }
    var i := 0;
    while i < |ks| && ks[i].a == index && (i == 0 || ks[i].b == term)
      invariant 0 <= i <= |ks|
      invariant i == 0 ==> indexes == {}
      invariant i > 0 ==> indexes == {index} && Key(index, term, 0) in log && HasIndex(log, index)
    {
      assert ks[i] in ks && ks[i] in log;
      term := ks[i].b;
      indexes := indexes + {ks[i].a};
      i := i + 1;
    }
  }

  // ----- Comparing the starts

  /** The lists agree in their first `n` elements and no further. */
  ghost predicate AgreeFor(a: seq<Key>, b: seq<Key>, n: nat) {
    && n <= |a| && n <= |b| && a[..n] == b[..n]
    && (n < |a| && n < |b| ==> a[n] != b[n])
  }

  /** `handle_synchronize_log`: the last of the elements up to which two lists agree. */
  method LastCommon(mine: seq<Key>, theirs: seq<Key>) returns (r: Option<Key>, ghost n: nat)
    ensures AgreeFor(mine, theirs, n) && r == if n == 0 then None else Some(mine[n - 1])
  {
    r := None;
    var i := 0;
    while i < |mine| && i < |theirs| && mine[i] == theirs[i]
      invariant i <= |mine| && i <= |theirs| && mine[..i] == theirs[..i]
      invariant r == if i == 0 then None else Some(mine[i - 1])
    {
      r := Some(mine[i]);
      i := i + 1;
    }
    n := i;
  }

  lemma FirstIsStart(log: set<Key>, starts: seq<Key>, k: Key)
    requires IsLog(log) && AreStarts(log, starts) && k in log
    ensures starts != [] && starts[0].a <= k.a
  {
    var f := First(log);
    assert IsStart(log, f);
    assert f in starts;
    var j :| 0 <= j < |starts| && starts[j] == f;
    assert starts[0] in starts && starts[0] in log;
    assert j == 0 || Before(starts[0], f);
  }

  lemma EarlyStart(log: set<Key>, starts: seq<Key>, n: nat, k: Key)
    requires IsLog(log) && AreStarts(log, starts) && 0 < n <= |starts| && k in starts && k.a <= starts[n - 1].a
    ensures k in starts[..n]
  {
    var j :| 0 <= j < |starts| && starts[j] == k;
    assert starts[n - 1] in starts && starts[n - 1] in log && k in log;
    assert k == starts[n - 1] || Before(k, starts[n - 1]);
    assert j < n;
    assert starts[..n][j] == k;
  }

  /** A start of one log, among the first that agree, is an entry of the other. */
  lemma StartIsCommon(a: set<Key>, b: set<Key>, as_: seq<Key>, bs: seq<Key>, n: nat, k: Key)
    requires IsLog(a) && AreStarts(a, as_) && AreStarts(b, bs) && AgreeFor(as_, bs, n)
    requires n > 0 && IsStart(a, k) && k.a <= as_[n - 1].a
    ensures k in b
  {
    EarlyStart(a, as_, n, k);
    var j :| 0 <= j < n && as_[..n][j] == k;
    assert bs[..n][j] == bs[j] == k;
    assert bs[j] in bs;
  }

  lemma HasEntryAt(log: set<Key>, from: Key, to: Key, i: nat) returns (k: Key)
    requires IsLog(log) && from in log && to in log && from.a <= i <= to.a
    ensures k in log && k.a == i
  {
    assert HasIndex(log, i);
    k :| k in log && k.a == i;
  }

  lemma NewTermStarts(log: set<Key>, p: Key, k: Key)
    requires IsLog(log) && p in log && k in log && p.a + 1 == k.a && p.b != k.b
    ensures IsStart(log, k)
  {
  }

  /** Up to the last start that agrees, the logs have the same entry at every index. */
  lemma {:induction false} SameEntry(a: set<Key>, b: set<Key>, as_: seq<Key>, bs: seq<Key>, n: nat, i: nat)
    returns (k: Key)
    requires IsLog(a) && IsLog(b) && AreStarts(a, as_) && AreStarts(b, bs) && AgreeFor(as_, bs, n) && n > 0
    requires as_[0].a <= i <= as_[n - 1].a
    ensures k.a == i && k in a && k in b
    decreases i
  {
    var first, x := as_[0], as_[n - 1];
    assert as_[..n][0] == bs[..n][0] && as_[..n][n - 1] == bs[..n][n - 1];
    assert first in as_ && x in as_ && bs[0] in bs && bs[n - 1] in bs;
    if i == first.a {
      k := first;
    } else {
      var p := SameEntry(a, b, as_, bs, n, i - 1);
      k := HasEntryAt(a, first, x, i);
      var k' := HasEntryAt(b, first, x, i);
      if p.b != k.b {
        NewTermStarts(a, p, k);
        StartIsCommon(a, b, as_, bs, n, k);
      } else if p.b != k'.b {
        NewTermStarts(b, p, k');
        StartIsCommon(b, a, bs, as_, n, k');
      } else {
        assert k == Key(i, p.b, 0) && k' == Key(i, p.b, 0);
      }
    }
  }

  /** The logs agree up to the last start that their lists of starts have in common. */
  lemma StartsAgree(a: set<Key>, b: set<Key>, as_: seq<Key>, bs: seq<Key>, n: nat)
    requires IsLog(a) && IsLog(b) && AreStarts(a, as_) && AreStarts(b, bs) && AgreeFor(as_, bs, n) && n > 0
    ensures as_[n - 1] in a && as_[n - 1] in b && Agree(a, b, as_[n - 1].a)
  {
    var x := as_[n - 1];
    assert as_[..n][n - 1] == bs[..n][n - 1] && as_[..n][0] == bs[..n][0];
    assert x in as_ && bs[n - 1] in bs;
    forall k: Key | k.a <= x.a ensures k in a <==> k in b {
      if k in a {
        FirstIsStart(a, as_, k);
        var k' := SameEntry(a, b, as_, bs, n, k.a);
      }
      if k in b {
        FirstIsStart(b, bs, k);
        var k' := SameEntry(a, b, as_, bs, n, k.a);
      }
    }
  }

  // ----- How far the logs agree

  lemma NoAgreement(a: set<Key>, b: set<Key>, as_: seq<Key>, bs: seq<Key>, i: nat)
    requires IsLog(a) && IsLog(b) && AreStarts(a, as_) && AreStarts(b, bs) && AgreeFor(as_, bs, 0)
    ensures !Agree(a, b, i)
  {
    if Agree(a, b, i) {
      var k, k' :| k in a && k.a == i && k' in b && k'.a == i;
      FirstIsStart(a, as_, k);
      FirstIsStart(b, bs, k');
      assert as_[0] in as_ && bs[0] in bs;
      FirstIsStart(a, as_, bs[0]);
      FirstIsStart(b, bs, as_[0]);
    }
  }

  /** An entry of a new term right after a start is the next start. */
  lemma NextStart(log: set<Key>, starts: seq<Key>, n: nat, y: Key)
    requires IsLog(log) && AreStarts(log, starts) && 0 < n <= |starts|
    requires IsStart(log, y) && y.a == starts[n - 1].a + 1
    ensures n < |starts| && starts[n] == y
  {
    var x := starts[n - 1];
    assert x in starts && y in starts;
    var j :| 0 <= j < |starts| && starts[j] == y;
    assert j > n - 1;
    assert starts[n] in starts && starts[n] in log && Before(x, starts[n]);
    assert j == n || Before(starts[n], y);
  }

  /** The entry after the last common start is the same in both logs only if its term is the same, too. */
  lemma NextDiffers(a: set<Key>, b: set<Key>, as_: seq<Key>, bs: seq<Key>, n: nat, i: nat)
    requires IsLog(a) && IsLog(b) && AreStarts(a, as_) && AreStarts(b, bs) && AgreeFor(as_, bs, n) && n > 0
    requires Agree(a, b, i) && i > as_[n - 1].a
    ensures var y := Key(as_[n - 1].a + 1, as_[n - 1].b, 0); y in a && y in b
  {
    var x := as_[n - 1];
    StartsAgree(a, b, as_, bs, n);
    var end :| end in a && end.a == i;
    var y := HasEntryAt(a, x, end, x.a + 1);
    assert y in b;
    assert as_[..n][n - 1] == bs[..n][n - 1];
    if y.b != x.b {
      NewTermStarts(a, x, y);
      NewTermStarts(b, x, y);
      NextStart(a, as_, n, y);
      NextStart(b, bs, n, y);
    }
  }

  lemma NextAgrees(a: set<Key>, b: set<Key>, x: Key)
    requires IsLog(a) && IsLog(b) && Agree(a, b, x.a)
    requires Key(x.a + 1, x.b, 0) in a && Key(x.a + 1, x.b, 0) in b
    ensures Agree(a, b, x.a + 1)
  {
    var y := Key(x.a + 1, x.b, 0);
    assert HasIndex(a, y.a) && HasIndex(b, y.a);
    forall k: Key | k.a <= y.a ensures k in a <==> k in b {
      assert k.a == y.a && (k in a || k in b) ==> k == y;
    }
  }

  /** No index beyond this one is agreed on. */
  ghost predicate IsLastAgreed(a: set<Key>, b: set<Key>, index: nat) {
    forall i: nat :: Agree(a, b, i) ==> i <= index
  }

  // ----- The exchange

  /** The start of the last common term: both logs have it and agree up to it, and they agree no further if and only
      if the entry after it is not one of the same term in both. If there is none, they agree nowhere. */
  method Synchronize(leader: set<Key>, follower: set<Key>) returns (r: Option<Key>)
    requires IsLog(leader) && IsLog(follower)
    ensures r.None? ==> forall i :: !Agree(leader, follower, i)
    ensures r.Some? ==>
              var x := r.value;
              && x in leader && x in follower && Agree(leader, follower, x.a)
              && (IsLastAgreed(leader, follower, x.a) <==>
                  !(Key(x.a + 1, x.b, 0) in leader && Key(x.a + 1, x.b, 0) in follower))
  {
    var theirs := TermStarts(leader);
    var mine := TermStarts(follower);
    ghost var n;
    r, n := LastCommon(mine, theirs);
    if r == None {
      forall i ensures !Agree(leader, follower, i) {
        NoAgreement(follower, leader, mine, theirs, i);
        assert Agree(leader, follower, i) ==> Agree(follower, leader, i);
      }
      return;
    }
    var x := r.value;
    StartsAgree(follower, leader, mine, theirs, n);
    assert HasIndex(leader, x.a) && HasIndex(follower, x.a);
    var _, found := IndexesAt(follower, x.a);
    var term, indexes := IndexesAt(leader, Least(found));
    indexes := indexes * found;
    assert indexes == {x.a};
    r := Some(Key(Highest(indexes), term, 0));
    assert r.value == x;
    LastAgreed(follower, leader, mine, theirs, n);
    AgreeSwap(leader, follower, x.a);
  }

  lemma AgreeSwap(a: set<Key>, b: set<Key>, index: nat)
    ensures Agree(a, b, index) <==> Agree(b, a, index)
    ensures IsLastAgreed(a, b, index) <==> IsLastAgreed(b, a, index)
  {
    assert forall i :: Agree(a, b, i) <==> Agree(b, a, i);
  }

  lemma LastAgreed(a: set<Key>, b: set<Key>, as_: seq<Key>, bs: seq<Key>, n: nat)
    requires IsLog(a) && IsLog(b) && AreStarts(a, as_) && AreStarts(b, bs) && AgreeFor(as_, bs, n) && n > 0
    ensures var x := as_[n - 1];
            IsLastAgreed(a, b, x.a) <==> !(Key(x.a + 1, x.b, 0) in a && Key(x.a + 1, x.b, 0) in b)
  {
    var x := as_[n - 1];
    StartsAgree(a, b, as_, bs, n);
    if Key(x.a + 1, x.b, 0) in a && Key(x.a + 1, x.b, 0) in b {
      NextAgrees(a, b, x);
    } else {
      forall i: nat | Agree(a, b, i) ensures i <= x.a {
        if i > x.a {
          NextDiffers(a, b, as_, bs, n, i);
        }
      }
    }
  }

  /** What a leader does with a follower: send everything, go on from an entry they share, have the follower undo what
      comes after an entry, or everything, or give up. */
  datatype Match = SendAll | Exact(id: Key) | Undo(matched: Option<Key>) | GiveUp

  /** `handle_match_log`, the leader's look-up of the answer, and `Synchronize` where they differ. An undo begins if
      and only if the last entry of the follower up to the leader's last one is not in the leader's log, which goes on
      after it; and it goes back to an entry before that one, and before the leader's last. */
  method FindMatch(leader: set<Key>, follower: set<Key>, last: Key) returns (m: Match, ghost prev: Option<Key>)
    requires IsLog(leader) && IsLog(follower)
    ensures IsPrev(follower, last, prev)
    ensures m == SendAll <==> prev == None
    ensures forall x :: m == Exact(x) <==> prev == Some(x) && x in leader
    ensures m.Undo? <==> prev.Some? && prev.value !in leader && exists k :: k in leader && Before(prev.value, k)
    ensures m.Undo? && m.matched.Some? ==>
              var x := m.matched.value;
              && x in leader && x in follower && Agree(leader, follower, x.a)
              && x.a < prev.value.a && exists k :: k in leader && x.a < k.a
    ensures m.Undo? && m.matched.None? ==> forall i :: !Agree(leader, follower, i)
  {
    var found := PrevEntry(follower, last);
    prev := found;
    if found == None {
      return SendAll, prev;
    }
    var x := found.value;
    var next := NextEntry(leader, x);
    if next == None {
      assert x !in leader && forall k :: k in leader ==> !Before(x, k);
      return GiveUp, prev;
    }
    if next.value == x {
      return Exact(x), prev;
    }
    assert x !in leader && Before(x, next.value);
    var matched := Synchronize(leader, follower);
    m := Undo(matched);
    assert matched.Some? ==> matched.value.a < x.a <= next.value.a;
  }
}

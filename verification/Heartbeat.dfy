/** The sliding window of heartbeat intervals that the failure detector draws its statistics from. */
module Heartbeat {
  import opened Common

  const WINDOW: nat := 1024
  const MAX_INTERVAL: nat := 60 * 60 * 1000

  datatype Liveness = Seed | Alive | Suspected | Offline | Left

  function Sum(s: seq<nat>): nat {
    if s == [] then 0 else Sum(s[..|s| - 1]) + s[|s| - 1]
  }

  function Squares(s: seq<nat>): seq<nat> {
    seq(|s|, i requires 0 <= i < |s| => s[i] * s[i])
  }

  /** 64-bit multiplication that sticks to the largest value. */
  function SaturatingMul(a: nat, b: nat): U64 {
    if a * b < U64_LIMIT then a * b else U64_LIMIT - 1
  }

  // ----- Sums under update

  lemma {:induction false} SumUpdate(s: seq<nat>, i: nat, v: nat)
    requires i < |s|
    ensures Sum(s[i := v]) + s[i] == Sum(s) + v
    decreases |s|
  {
    var n := |s| - 1;
    if i < n {
      SumUpdate(s[..n], i, v);
      assert s[i := v][..n] == s[..n][i := v];
    } else {
      assert s[i := v][..n] == s[..n];
    }
  }

  lemma SquaresUpdate(s: seq<nat>, i: nat, v: nat)
    requires i < |s|
    ensures Squares(s[i := v]) == Squares(s)[i := v * v]
  {
  }

  lemma {:induction false} SumAtLeast(s: seq<nat>, i: nat)
    requires i < |s|
    ensures s[i] <= Sum(s)
    decreases |s|
  {
    if i < |s| - 1 {
      SumAtLeast(s[..|s| - 1], i);
    }
  }

  lemma {:induction false} SumAtMost(s: seq<nat>, max: nat)
    requires forall k :: 0 <= k < |s| ==> s[k] <= max
    ensures Sum(s) <= |s| * max
    decreases |s|
  {
    if s != [] {
      SumAtMost(s[..|s| - 1], max);
      assert |s| * max == (|s| - 1) * max + max;
    }
  }

  lemma Square(a: nat, b: nat)
    requires a <= b
    ensures a * a <= b * b
  {
    assert a * a <= a * b <= b * b;
  }

  lemma {:induction false} ZeroSum(s: seq<nat>)
    requires Sum(s) == 0
    ensures forall k :: 0 <= k < |s| ==> s[k] == 0
    decreases |s|
  {
    if s != [] {
      ZeroSum(s[..|s| - 1]);
    }
  }

  /** Zeros at the end change nothing. */
  lemma {:induction false} DropZeros(s: seq<nat>, n: nat)
    requires n <= |s| && forall k :: n <= k < |s| ==> s[k] == 0
    ensures Sum(s) == Sum(s[..n])
    decreases |s|
  {
    if n < |s| {
      DropZeros(s[..|s| - 1], n);
      assert s[..|s| - 1][..n] == s[..n];
    } else {
      assert s[..n] == s;
    }
  }

  const MAX_SQUARE: nat := MAX_INTERVAL * MAX_INTERVAL

  /** The sums of a window fit into 64 bits, and contain each of its intervals. */
  ghost predicate Fits(s: seq<nat>) {
    Sum(s) < U64_LIMIT && Sum(Squares(s)) < U64_LIMIT
  }

  lemma WindowFits(s: seq<nat>)
    requires |s| == WINDOW && forall k :: 0 <= k < |s| ==> s[k] <= MAX_INTERVAL
    ensures Fits(s)
  {
    SumAtMost(s, MAX_INTERVAL);
    forall k | 0 <= k < |s| ensures Squares(s)[k] <= MAX_SQUARE {
      Square(s[k], MAX_INTERVAL);
    }
    SumAtMost(Squares(s), MAX_SQUARE);
  }

  /** The sums after one interval was replaced. */
  lemma WindowUpdate(s: seq<nat>, i: nat, v: nat)
    requires |s| == WINDOW && i < WINDOW && v <= MAX_INTERVAL && forall k :: 0 <= k < |s| ==> s[k] <= MAX_INTERVAL
    ensures s[i] <= Sum(s) && SaturatingMul(s[i], s[i]) <= Sum(Squares(s))
    ensures Sum(s[i := v]) == Sum(s) - s[i] + v
    ensures Sum(Squares(s[i := v])) == Sum(Squares(s)) - SaturatingMul(s[i], s[i]) + SaturatingMul(v, v)
    ensures Fits(s[i := v])
  {
    SumAtLeast(s, i);
    SumAtLeast(Squares(s), i);
    Square(s[i], MAX_INTERVAL);
    Square(v, MAX_INTERVAL);
    SumUpdate(s, i, v);
    SquaresUpdate(s, i, v);
    SumUpdate(Squares(s), i, v * v);
    WindowFits(s[i := v]);
  }

  // ----- The last intervals

  /** Number `i`, counted from the end. */
  function FromEnd(xs: seq<nat>, i: nat): nat {
    if i < |xs| then xs[|xs| - 1 - i] else 0
  }

  /** The last intervals of a window, oldest first, with zeros for those that there are not yet. */
  function Latest(xs: seq<nat>): (w: seq<nat>)
    ensures |w| == WINDOW && forall i :: 0 <= i < WINDOW ==> w[i] == FromEnd(xs, WINDOW - 1 - i)
  {
    seq(WINDOW, i requires 0 <= i < WINDOW => FromEnd(xs, WINDOW - 1 - i))
  }

  lemma LatestNext(xs: seq<nat>, x: nat)
    ensures Latest(xs + [x]) == Latest(xs)[1..] + [x]
  {
    var more, next := Latest(xs + [x]), Latest(xs)[1..] + [x];
    forall i | 0 <= i < WINDOW ensures more[i] == next[i] {
      assert i < WINDOW - 1 ==> next[i] == Latest(xs)[i + 1];
    }
  }

  /** The window from the position after `pos` on, all the way around. */
  function Rotated(w: seq<nat>, pos: nat): seq<nat>
    requires pos < |w|
  {
    w[pos + 1..] + w[..pos + 1]
  }

  lemma RotatedNext(w: seq<nat>, pos: nat, x: nat)
    requires |w| == WINDOW && pos < WINDOW
    ensures var pos' := (pos + 1) % WINDOW; Rotated(w[pos' := x], pos') == Rotated(w, pos)[1..] + [x]
  {
    if pos + 1 < WINDOW {
      assert (pos + 1) % WINDOW == pos + 1;
    } else {
      assert (pos + 1) % WINDOW == 0;
    }
  }

  lemma {:induction false} SumConcat(a: seq<nat>, b: seq<nat>)
    ensures Sum(a + b) == Sum(a) + Sum(b)
    decreases |b|
  {
    if b == [] {
      assert a + b == a;
    } else {
      SumConcat(a, b[..|b| - 1]);
      assert (a + b)[..|a + b| - 1] == a + b[..|b| - 1];
    }
  }

  lemma SquaresConcat(a: seq<nat>, b: seq<nat>)
    ensures Squares(a + b) == Squares(a) + Squares(b)
  {
  }

  lemma SumsTurn(a: seq<nat>, b: seq<nat>)
    ensures Sum(b + a) == Sum(a + b) && Sum(Squares(b + a)) == Sum(Squares(a + b))
  {
    SumConcat(a, b);
    SumConcat(b, a);
    SquaresConcat(a, b);
    SquaresConcat(b, a);
    SumConcat(Squares(a), Squares(b));
    SumConcat(Squares(b), Squares(a));
  }

  lemma SumsOfRotated(w: seq<nat>, pos: nat, r: seq<nat>)
    requires pos < |w| && r == Rotated(w, pos)
    ensures Sum(r) == Sum(w) && Sum(Squares(r)) == Sum(Squares(w))
  {
    var a, b := w[..pos + 1], w[pos + 1..];
    assert w == a + b && r == b + a;
    SumsTurn(a, b);
  }

  /** A window is a ring of the latest intervals, the last of them at `pos`. */
  ghost predicate IsRing(w: seq<nat>, pos: nat, xs: seq<nat>) {
    |w| == WINDOW && pos == |xs| % WINDOW && Rotated(w, pos) == Latest(xs)
  }

  lemma EmptyRing(w: seq<nat>)
    requires |w| == WINDOW && forall k :: 0 <= k < WINDOW ==> w[k] == 0
    ensures IsRing(w, 0, [])
  {
    forall i | 0 <= i < WINDOW ensures Rotated(w, 0)[i] == Latest([])[i] {
      assert Rotated(w, 0)[i] == if i < WINDOW - 1 then w[i + 1] else w[0];
    }
  }

  lemma RingNext(w: seq<nat>, pos: nat, xs: seq<nat>, x: nat)
    requires IsRing(w, pos, xs)
    ensures var pos' := (pos + 1) % WINDOW; IsRing(w[pos' := x], pos', xs + [x])
  {
    LatestNext(xs, x);
    RotatedNext(w, pos, x);
  }

  lemma RingSum(w: seq<nat>, pos: nat, xs: seq<nat>)
    requires IsRing(w, pos, xs)
    ensures Sum(w) == Sum(Latest(xs)) && Sum(Squares(w)) == Sum(Squares(Latest(xs)))
    ensures Sum(w) > 0 <==> HasPositive(Latest(xs))
  {
    SumsOfRotated(w, pos, Latest(xs));
    AnyPositive(Latest(xs));
  }

  ghost predicate HasPositive(s: seq<nat>) {
    exists k :: 0 <= k < |s| && s[k] > 0
  }

  lemma AnyPositive(s: seq<nat>)
    ensures Sum(s) > 0 <==> HasPositive(s)
  {
    if Sum(s) == 0 {
      ZeroSum(s);
    }
    if !HasPositive(s) {
      DropZeros(s, 0);
    }
    if k :| 0 <= k < |s| && s[k] > 0 {
      SumAtLeast(s, k);
    }
  }

  /** Zeros at the front change nothing. */
  lemma DropFrontZeros(s: seq<nat>, n: nat)
    requires n <= |s| && forall k :: 0 <= k < n ==> s[k] == 0
    ensures Sum(s) == Sum(s[n..])
  {
    assert s[..n] + s[n..] == s;
    SumConcat(s[..n], s[n..]);
    DropZeros(s[..n], 0);
    assert s[..n][..0] == [];
  }

  /** A window with its sums. */
  ghost predicate HasSums(w: seq<nat>, sum: nat, squares: nat) {
    && |w| == WINDOW && (forall k :: 0 <= k < WINDOW ==> w[k] <= MAX_INTERVAL)
    && sum == Sum(w) && squares == Sum(Squares(w))
  }

  lemma SumsNext(w: seq<nat>, i: nat, sum: nat, squares: nat, x: nat)
    requires HasSums(w, sum, squares) && i < WINDOW && x <= MAX_INTERVAL
    ensures w[i] <= sum && SaturatingMul(w[i], w[i]) <= squares
    ensures HasSums(w[i := x], sum - w[i] + x, squares - SaturatingMul(w[i], w[i]) + SaturatingMul(x, x))
    ensures sum - w[i] + x < U64_LIMIT && squares - SaturatingMul(w[i], w[i]) + SaturatingMul(x, x) < U64_LIMIT
  {
    WindowUpdate(w, i, x);
  }

  ghost predicate NothingAfter(w: seq<nat>, pos: nat) {
    forall k :: pos < k < |w| ==> w[k] == 0
  }

  /** The next place of a window that is not full is empty. */
  lemma NothingNext(w: seq<nat>, pos: nat, x: nat)
    requires |w| == WINDOW && pos < WINDOW && NothingAfter(w, pos) && (pos == WINDOW - 1 ==> Sum(w) == 0)
    ensures var pos' := (pos + 1) % WINDOW; w[pos'] == 0 && NothingAfter(w[pos' := x], pos')
  {
    if pos == WINDOW - 1 {
      ZeroSum(w);
    }
  }

  /** A window that is a ring of the latest intervals with their sums. Until it is full, there is nothing in it
      but the intervals of this time around. */
  ghost predicate Describes(w: seq<nat>, pos: nat, sum: nat, squares: nat, isFull: bool, history: seq<nat>) {
    && IsRing(w, pos, history) && HasSums(w, sum, squares)
    && (!isFull ==> NothingAfter(w, pos)) && (isFull ==> |history| >= WINDOW)
  }

  /** One more interval: its place is cleared if the window is full. */
  lemma CountNext(w: seq<nat>, pos: nat, sum: nat, squares: nat, isFull: bool, history: seq<nat>, x: nat)
    requires Describes(w, pos, sum, squares, isFull, history) && x <= MAX_INTERVAL
    ensures var pos' := (pos + 1) % WINDOW;
            var isFull' := isFull || (pos' == 0 && sum > 0);
            var last: nat := if isFull' then w[pos'] else 0;
            var sum', squares' := sum - last + x, squares - SaturatingMul(last, last) + SaturatingMul(x, x);
            && last <= sum && SaturatingMul(last, last) <= squares && sum' < U64_LIMIT && squares' < U64_LIMIT
            && Describes(w[pos' := x], pos', sum', squares', isFull', history + [x])
            && (isFull' <==> isFull || (|history + [x]| % WINDOW == 0 && HasPositive(Latest(history))))
  {
    RingNext(w, pos, history, x);
    SumsNext(w, (pos + 1) % WINDOW, sum, squares, x);
    FillsUp(w, pos, sum, squares, history, |history| + 1);
    if !isFull && (pos < WINDOW - 1 || sum == 0) {
      NothingNext(w, pos, x);
    }
  }

  /** The window is full when it has gone around once with an interval other than zero. */
  lemma FillsUp(w: seq<nat>, pos: nat, sum: nat, squares: nat, history: seq<nat>, n: nat)
    requires IsRing(w, pos, history) && HasSums(w, sum, squares) && n == |history| + 1
    ensures (pos + 1) % WINDOW == n % WINDOW && (pos + 1 == WINDOW ==> n >= WINDOW)
    ensures sum > 0 <==> HasPositive(Latest(history))
  {
    RingSum(w, pos, history);
  }

  lemma ZerosInFront(w: seq<nat>, pos: nat, latest: seq<nat>)
    requires pos < |w| && latest == Rotated(w, pos) && NothingAfter(w, pos)
    ensures forall k :: 0 <= k < |w| - 1 - pos ==> latest[k] == 0
  {
    forall k | 0 <= k < |w| - 1 - pos ensures latest[k] == 0 {
      assert latest[k] == w[pos + 1 + k];
    }
  }

  lemma DropsZeros(s: seq<nat>, n: nat)
    requires n <= |s| && forall k :: 0 <= k < n ==> s[k] == 0
    ensures Sum(s) == Sum(s[n..]) && Sum(Squares(s)) == Sum(Squares(s[n..]))
  {
    DropFrontZeros(s, n);
    SquaresOfZeros(s, n);
    DropFrontZeros(Squares(s), n);
  }

  lemma SquaresOfZeros(s: seq<nat>, n: nat)
    requires n <= |s| && forall k :: 0 <= k < n ==> s[k] == 0
    ensures (forall k :: 0 <= k < n ==> Squares(s)[k] == 0) && Squares(s)[n..] == Squares(s[n..])
  {
  }

  // ----- Variance

  /** Squared distance of a number from a value. */
  function Distance(x: nat, m: real): real {
    (x as real - m) * (x as real - m)
  }

  /** Sum of the squared distances from a value. */
  function Deviation(s: seq<nat>, mean: real): real {
    if s == [] then 0.0
    else Deviation(s[..|s| - 1], mean) + Distance(s[|s| - 1], mean)
  }

  lemma SquareIsPositive(x: real)
    ensures x * x >= 0.0
  {
  }

  lemma {:induction false} DeviationIsPositive(s: seq<nat>, mean: real)
    ensures Deviation(s, mean) >= 0.0
    decreases |s|
  {
    if s != [] {
      DeviationIsPositive(s[..|s| - 1], mean);
      SquareIsPositive(s[|s| - 1] as real - mean);
    }
  }

  lemma SquareOfDifference(x: real, m: real)
    ensures (x - m) * (x - m) == x * x - 2.0 * (m * x) + m * m
  {
  }

  lemma Distribute(a: real, b: real, c: real)
    ensures a * (b + c) == a * b + a * c
    ensures (b + c) * a == b * a + c * a
  {
  }

  /** What the squared distances of numbers from `m` add up to. */
  function Expanded(squares: real, total: real, n: real, m: real): real {
    squares - 2.0 * (m * total) + n * (m * m)
  }

  lemma ExpandedStep(squares: real, total: real, n: real, m: real, x: nat)
    ensures Expanded(squares + (x * x) as real, total + x as real, n + 1.0, m) ==
            Expanded(squares, total, n, m) + Distance(x, m)
  {
    RealSquare(x);
    SquareOfDifference(x as real, m);
    Distribute(m, total, x as real);
    Distribute(m * m, n, 1.0);
  }

  lemma RealSquare(x: nat)
    ensures (x * x) as real == x as real * x as real
  {
  }

  function Expansion(s: seq<nat>, m: real): real {
    Expanded(Sum(Squares(s)) as real, Sum(s) as real, |s| as real, m)
  }

  lemma ExpansionSnoc(s: seq<nat>, m: real)
    requires s != []
    ensures Expansion(s, m) == Expansion(s[..|s| - 1], m) + Distance(s[|s| - 1], m)
  {
    var front, x := s[..|s| - 1], s[|s| - 1];
    assert Squares(s)[..|s| - 1] == Squares(front) && Squares(s)[|s| - 1] == x * x;
    assert Sum(Squares(s)) == Sum(Squares(front)) + x * x && Sum(s) == Sum(front) + x;
    ExpandedStep(Sum(Squares(front)) as real, Sum(front) as real, |front| as real, m, x);
  }

  lemma {:induction false} DeviationExpands(s: seq<nat>, mean: real)
    ensures Deviation(s, mean) == Expansion(s, mean)
    decreases |s|
  {
    if s != [] {
      DeviationExpands(s[..|s| - 1], mean);
      ExpansionSnoc(s, mean);
    }
  }

  lemma TimesSize(meanSquare: real, mean: real, n: real, squares: real, total: real, variance: real)
    requires n * meanSquare == squares && n * mean == total && variance == meanSquare - mean * mean
    ensures variance * n == Expanded(squares, total, n, mean)
  {
    Distribute(n, meanSquare, -(mean * mean));
    assert n * (mean * mean) == mean * (n * mean);
  }

  lemma NotNegative(x: real, n: real)
    requires n > 0.0 && x * n >= 0.0
    ensures x >= 0.0
  {
  }

  /** Mean of the squares minus square of the mean: the mean squared distance from the mean. */
  lemma VarianceIsDeviation(s: seq<nat>, meanSquare: real, mean: real, variance: real)
    requires s != [] && variance == meanSquare - mean * mean
    requires |s| as real * meanSquare == Sum(Squares(s)) as real && |s| as real * mean == Sum(s) as real
    ensures variance * |s| as real == Deviation(s, mean)
  {
    TimesSize(meanSquare, mean, |s| as real, Sum(Squares(s)) as real, Sum(s) as real, variance);
    DeviationExpands(s, mean);
  }

  method Quotient(a: real, n: real) returns (q: real)
    requires n > 0.0
    ensures n * q == a
  {
    q := a / n;
  }

  /** Mean and variance of some numbers: their sum and their squared distances from the mean, each
      divided by their count. */
  ghost predicate AreStatistics(s: seq<nat>, mean: real, variance: real) {
    && |s| as real * mean == Sum(s) as real
    && variance * |s| as real == Deviation(s, mean)
  }

  lemma VarianceIsPositive(s: seq<nat>, mean: real, variance: real)
    requires s != [] && AreStatistics(s, mean, variance)
    ensures variance >= 0.0
  {
    DeviationIsPositive(s, mean);
    NotNegative(variance, |s| as real);
  }

  method Statistics(sum: nat, squares: nat, size: nat, ghost s: seq<nat>) returns (mean: real, variance: real)
    requires size == |s| > 0 && sum == Sum(s) && squares == Sum(Squares(s))
    ensures AreStatistics(s, mean, variance) && variance >= 0.0
  {
    mean := Quotient(sum as real, size as real);
    var meanSquare := Quotient(squares as real, size as real);
    variance := meanSquare - mean * mean;
    VarianceIsDeviation(s, meanSquare, mean, variance);
    VarianceIsPositive(s, mean, variance);
  }

  class Peer {
    var state: Liveness
    const window: array<U32>
    var pos: nat
    var sum: U64
    var squares: U64
    var isFull: bool

    /** All intervals counted so far, oldest first. */
    ghost var history: seq<nat>

    ghost predicate Valid()
      reads this, window
    {
      window.Length == WINDOW && Describes(window[..], pos, sum, squares, isFull, history)
    }

    constructor ()
      ensures Valid() && fresh(window) && state == Seed && !isFull && history == []
    {
      state, pos, sum, squares, isFull, history := Seed, 0, 0, 0, false, [];
      window := new U32[WINDOW](_ => 0);
      new;
      EmptyRing(window[..]);
      DropZeros(window[..], 0);
      DropZeros(Squares(window[..]), 0);
    }

    /** Moves the window on by one interval. No sum ever falls below zero, exceeds 64 bits or sticks
        to the largest value. */
    method Count(interval: nat)
      requires Valid() && interval <= MAX_INTERVAL
      modifies `pos, `sum, `squares, `isFull, `history, window
      ensures Valid() && history == old(history) + [interval]
      ensures isFull == (old(isFull) || (|history| % WINDOW == 0 && HasPositive(old(Latest(history)))))
    {
      CountNext(window[..], pos, sum, squares, isFull, history, interval);
      ghost var after: seq<nat> := window[..][(pos + 1) % WINDOW := interval];
      pos := (pos + 1) % WINDOW;
      if !isFull && pos == 0 && sum > 0 {
        isFull := true;
      }
      if isFull {
        var last := window[pos];
        sum := sum - last;
        squares := squares - SaturatingMul(last, last);
      }
      window[pos] := interval;
      sum := sum + interval;
      squares := squares + SaturatingMul(interval, interval);
      history := history + [interval];
      assert window[..] == after;
    }

    /** Takes note of a heartbeat, `elapsed` milliseconds after the one before: one from a peer that was not known to
        be there only brings it back, without being counted. */
    method UpdateHeartbeat(elapsed: nat, isDirectPing: bool) returns (isNew: bool)
      requires Valid()
      modifies this, window
      ensures Valid()
      ensures isNew <==> old(state) == Seed || old(state) == Offline || (old(state) == Left && isDirectPing)
      ensures state == if isNew || old(state) == Suspected then Alive else old(state)
      ensures isNew ==> history == old(history) && isFull == old(isFull)
      ensures !isNew ==>
                && history == old(history) + [if elapsed < MAX_INTERVAL then elapsed else MAX_INTERVAL]
                && isFull == (old(isFull) || (|history| % WINDOW == 0 && HasPositive(old(Latest(history)))))
    {
      if state == Seed || state == Offline || (state == Left && isDirectPing) {
        state := Alive;
        return true;
      }
      if state == Suspected {
        state := Alive;
      }
      Count(if elapsed < MAX_INTERVAL then elapsed else MAX_INTERVAL);
      return false;
    }

    /** The intervals that count: the latest ones, or until then those of this time around and one before them, which
        is a zero that was never measured. */
    ghost function Samples(): seq<nat>
      requires Valid()
      reads this, window
    {
      Latest(history)[if isFull then 0 else WINDOW - 1 - |history| % WINDOW..]
    }

    lemma SumsOfSamples()
      requires Valid()
      ensures sum == Sum(Samples()) && squares == Sum(Squares(Samples()))
    {
      RingSum(window[..], pos, history);
      if !isFull {
        ZerosInFront(window[..], pos, Latest(history));
        DropsZeros(Latest(history), WINDOW - 1 - pos);
      }
    }

    /** Mean and variance of the intervals, as the failure detector computes them: the variance is the
        mean squared distance from the mean, and hence never negative. */
    method Variance() returns (mean: real, variance: real)
      requires Valid()
      ensures AreStatistics(Samples(), mean, variance) && variance >= 0.0
    {
      var size := if isFull then WINDOW else pos + 1;
      SumsOfSamples();
      mean, variance := Statistics(sum, squares, size, Samples());
    }
  }
}

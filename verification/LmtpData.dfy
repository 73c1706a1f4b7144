/** The DATA part of the LMTP parser: an automaton that removes the transparency dots of a message
    (section 4.5.2 of RFC 5321) and finds its end, however the bytes arrive. */
module LmtpData {
  import opened Common

  const LF: Byte := 10
  const CR: Byte := 13
  const DOT: Byte := 46

  datatype State = Text | Cr | CrLf | CrLfDot | CrLfDotCr

  datatype Parser = Parser(buf: seq<Byte>, state: State)

  datatype Outcome = More(parser: Parser) | Complete(data: seq<Byte>) | TooLong

  // ----- The automaton

  /** What one byte appends to the buffer, and the next state; a line feed after CR LF DOT CR ends
      the message. */
  function Move(state: State, ch: Byte): (seq<Byte>, State)
    requires !(state == CrLfDotCr && ch == LF)
  {
    if ch == CR then
      match state
      case Text => ([], Cr)
      case CrLfDot => ([], CrLfDotCr)
      case Cr => ([CR], Cr)
      case CrLf => ([CR, LF], Cr)
      case CrLfDotCr => ([CR, LF, DOT], Cr)
    else if ch == LF then
      match state
      case Text => ([LF], Text)
      case Cr => ([], CrLf)
      case CrLf => ([CR, LF, LF], Text)
      case CrLfDot => ([CR, LF, DOT, LF], Text)
    else if ch == DOT then
      match state
      case Text => ([DOT], Text)
      case CrLf => ([], CrLfDot)
      case Cr => ([CR, DOT], Text)
      case CrLfDot => ([CR, LF, DOT], Text)
      case CrLfDotCr => ([CR, LF, DOT, CR, DOT], Text)
    else
      match state
      case Text => ([ch], Text)
      case Cr => ([CR, ch], Text)
      case CrLf => ([CR, LF, ch], Text)
      case CrLfDot => ([CR, LF, ch], Text)
      case CrLfDotCr => ([CR, LF, DOT, CR, ch], Text)
  }

  function Step(p: Parser, ch: Byte, maxSize: nat): Outcome {
    if p.state == CrLfDotCr && ch == LF then Complete(p.buf)
    else
      var (more, state) := Move(p.state, ch);
      if |p.buf + more| > maxSize then TooLong else More(Parser(p.buf + more, state))
  }

  /** The outcome of reading `s` from position `i` on, and the number of bytes read in all. */
  function Run(p: Parser, s: seq<Byte>, i: nat, maxSize: nat): (Outcome, nat)
    requires i <= |s|
    decreases |s| - i
  {
    if i == |s| then (More(p), i)
    else
      match Step(p, s[i], maxSize)
      case More(p') => Run(p', s, i + 1, maxSize)
      case Complete(data) => (Complete(data), i + 1)
      case TooLong => (TooLong, i + 1)
  }

  /** The parser between two reads from the network. */
  class RequestParser {
    var buf: seq<Byte>
    var state: State
    const maxMessageSize: nat

    constructor (initial: seq<Byte>, maxMessageSize: nat)
      ensures buf == initial && state == Text && this.maxMessageSize == maxMessageSize
    {
      buf, state := initial, Text;
      this.maxMessageSize := maxMessageSize;
    }

    function View(): Parser
      reads this
    {
      Parser(buf, state)
    }

    /** Reads bytes until the message ends, is too long, or the bytes are used up. */
    method Parse(bytes: seq<Byte>) returns (r: Outcome, used: nat)
      modifies this
      ensures (r, used) == Run(old(View()), bytes, 0, maxMessageSize)
      ensures r.More? ==> View() == r.parser
    {
      for i := 0 to |bytes|
        invariant Run(View(), bytes, i, maxMessageSize) == Run(old(View()), bytes, 0, maxMessageSize)
      {
        var ch := bytes[i];
        if state == CrLfDotCr && ch == LF {
          return Complete(buf), i + 1;
        }
        var (more, next) := Move(state, ch);
        if |buf + more| > maxMessageSize {
          return TooLong, i + 1;
        }
        buf, state := buf + more, next;
      }
      return More(View()), |bytes|;
    }
  }

  // ----- Bytes arriving in pieces

  /** The outcome of reading pieces one after the other, and the number of bytes read in all. */
  function Feed(p: Parser, chunks: seq<seq<Byte>>, maxSize: nat): (Outcome, nat)
    decreases |chunks|
  {
    if chunks == [] then (More(p), 0)
    else
      var (r, used) := Run(p, chunks[0], 0, maxSize);
      if r.More? then
        var (r', used') := Feed(r.parser, chunks[1..], maxSize);
        (r', used + used')
      else (r, used)
  }

  lemma {:induction false} RunShift(p: Parser, a: seq<Byte>, b: seq<Byte>, i: nat, maxSize: nat)
    requires i <= |b|
    ensures var (r, used) := Run(p, b, i, maxSize); Run(p, a + b, |a| + i, maxSize) == (r, |a| + used)
    decreases |b| - i
  {
    if i < |b| {
      assert (a + b)[|a| + i] == b[i];
      var next := Step(p, b[i], maxSize);
      if next.More? {
        RunShift(next.parser, a, b, i + 1, maxSize);
      }
    }
  }

  lemma {:induction false} RunConcat(p: Parser, a: seq<Byte>, b: seq<Byte>, i: nat, maxSize: nat)
    requires i <= |a|
    ensures var (r, used) := Run(p, a, i, maxSize);
            && (r.More? ==> used == |a| && Run(p, a + b, i, maxSize) == Run(r.parser, a + b, |a|, maxSize))
            && (!r.More? ==> Run(p, a + b, i, maxSize) == (r, used))
    decreases |a| - i
  {
    if i < |a| {
      assert (a + b)[i] == a[i];
      var next := Step(p, a[i], maxSize);
      if next.More? {
        RunConcat(next.parser, a, b, i + 1, maxSize);
      }
    }
  }

  /** Chunking does not matter. */
  lemma {:induction false} FeedIsRun(p: Parser, chunks: seq<seq<Byte>>, maxSize: nat)
    ensures Feed(p, chunks, maxSize) == Run(p, Concat(chunks), 0, maxSize)
    decreases |chunks|
  {
    if chunks != [] {
      var a, b := chunks[0], Concat(chunks[1..]);
      RunConcat(p, a, b, 0, maxSize);
      var (r, used) := Run(p, a, 0, maxSize);
      if r.More? {
        FeedIsRun(r.parser, chunks[1..], maxSize);
        RunShift(r.parser, a, b, 0, maxSize);
      }
    }
  }

  // ----- Dot stuffing

  predicate StartsLine(msg: seq<Byte>, i: nat)
    requires i <= |msg|
  {
    i == 0 || (i >= 2 && msg[i - 2] == CR && msg[i - 1] == LF)
  }

  /** The message as it is sent, from position `i` on: a dot at the start of a line is doubled. */
  function Stuffed(msg: seq<Byte>, i: nat): seq<Byte>
    requires i <= |msg|
    decreases |msg| - i
  {
    if i == |msg| then []
    else (if msg[i] == DOT && StartsLine(msg, i) then [DOT, DOT] else [msg[i]]) + Stuffed(msg, i + 1)
  }

  const END: seq<Byte> := [CR, LF, DOT, CR, LF]

  /** The automaton begins in the middle of a line, so that a doubled dot at the very beginning of
      a message stays doubled. */
  function Kept(msg: seq<Byte>): seq<Byte> {
    (if msg != [] && msg[0] == DOT then [DOT] else []) + msg
  }

  /** What the automaton holds back. */
  function Held(state: State): seq<Byte> {
    match state
    case Text => []
    case Cr => [CR]
    case CrLf => [CR, LF]
    case CrLfDot => [CR, LF, DOT]
    case CrLfDotCr => [CR, LF, DOT, CR]
  }

  function StateAt(msg: seq<Byte>, i: nat): State
    requires i <= |msg|
  {
    if i >= 2 && msg[i - 2] == CR && msg[i - 1] == LF then CrLf
    else if i >= 1 && msg[i - 1] == CR then Cr
    else Text
  }

  /** The parser after the stuffed form of the first `i` bytes. */
  ghost predicate Reached(p: Parser, initial: seq<Byte>, msg: seq<Byte>, i: nat)
    requires i <= |msg|
  {
    p.state == StateAt(msg, i) && p.buf + Held(p.state) == initial + Kept(msg[..i])
  }

  lemma OneByte(p: Parser, initial: seq<Byte>, msg: seq<Byte>, i: nat)
    requires i < |msg| && Reached(p, initial, msg, i) && !(msg[i] == DOT && StartsLine(msg, i))
    ensures !(p.state == CrLfDotCr && msg[i] == LF)
    ensures var (more, state) := Move(p.state, msg[i]); Reached(Parser(p.buf + more, state), initial, msg, i + 1)
  {
    var (more, state) := Move(p.state, msg[i]);
    assert Held(p.state) + [msg[i]] == more + Held(state);
    KeptNext(msg, i);
    assert (p.buf + more) + Held(state) == (p.buf + Held(p.state)) + [msg[i]];
  }

  lemma KeptNext(msg: seq<Byte>, i: nat)
    requires i < |msg|
    ensures Kept(msg[..i + 1]) == if i == 0 && msg[0] == DOT then [DOT, DOT] else Kept(msg[..i]) + [msg[i]]
  {
    assert msg[..i + 1] == msg[..i] + [msg[i]];
  }

  /** A dot that starts a line, doubled. */
  lemma TwoDots(p: Parser, initial: seq<Byte>, msg: seq<Byte>, i: nat)
    requires i < |msg| && Reached(p, initial, msg, i) && msg[i] == DOT && StartsLine(msg, i)
    ensures var (more, state) := Move(p.state, DOT);
            && state != CrLfDotCr && |p.buf + more| <= |initial + Kept(msg[..i + 1])|
            && var (more', state') := Move(state, DOT);
               Reached(Parser(p.buf + more + more', state'), initial, msg, i + 1)
  {
    KeptNext(msg, i);
    if i == 0 {
      assert p.buf == initial + Kept(msg[..0]);
      assert p.buf + [DOT] + [DOT] == initial + [DOT, DOT];
    } else {
      assert p.buf + [] + [CR, LF, DOT] == (p.buf + Held(CrLf)) + [DOT];
    }
  }

  lemma KeptGrows(msg: seq<Byte>, i: nat)
    requires i <= |msg|
    ensures |Kept(msg[..i])| <= |Kept(msg)|
  {
    if i > 0 {
      assert msg[..i][0] == msg[0];
    }
  }

  /** The end of a message: everything held back is flushed by its first byte. */
  lemma EndRuns(p: Parser, initial: seq<Byte>, msg: seq<Byte>, s: seq<Byte>, at: nat, maxSize: nat)
    requires at <= |s| && s[at..] == END && Reached(p, initial, msg, |msg|)
    ensures var (r, used) := Run(p, s, at, maxSize);
            if |initial + Kept(msg)| <= maxSize then r == Complete(initial + Kept(msg)) && used == |s| else r == TooLong
  {
    assert msg[..|msg|] == msg;
    var total := initial + Kept(msg);
    assert |s| == at + 5;
    assert s[at] == s[at..][0] && s[at + 1] == s[at..][1] && s[at + 2] == s[at..][2] && s[at + 3] == s[at..][3]
           && s[at + 4] == s[at..][4];
    var (more, _) := Move(p.state, CR);
    assert p.buf + more == total;
    if |total| <= maxSize {
      assert total + [] == total;
      assert Run(Parser(total, CrLfDotCr), s, at + 4, maxSize) == (Complete(total), |s|);
      assert Run(Parser(total, CrLfDot), s, at + 3, maxSize) == (Complete(total), |s|);
      assert Run(Parser(total, CrLf), s, at + 2, maxSize) == (Complete(total), |s|);
      assert Run(Parser(total, Cr), s, at + 1, maxSize) == (Complete(total), |s|);
    }
  }

  lemma {:induction false} RunsOn(p: Parser, initial: seq<Byte>, msg: seq<Byte>, i: nat, s: seq<Byte>, at: nat,
                                  maxSize: nat)
    requires i <= |msg| && at <= |s| && s[at..] == Stuffed(msg, i) + END && Reached(p, initial, msg, i)
    ensures var (r, used) := Run(p, s, at, maxSize);
            if |initial + Kept(msg)| <= maxSize then r == Complete(initial + Kept(msg)) && used == |s| else r == TooLong
    decreases |msg| - i
  {
    if i == |msg| {
      EndRuns(p, initial, msg, s, at, maxSize);
    } else {
      KeptGrows(msg, i + 1);
      assert s[at] == s[at..][0];
      if msg[i] == DOT && StartsLine(msg, i) {
        TwoDots(p, initial, msg, i);
        assert s[at + 1] == s[at..][1] && s[at + 2..] == s[at..][2..] == Stuffed(msg, i + 1) + END;
        var next := Step(p, DOT, maxSize);
        if next.More? {
          var last := Step(next.parser, DOT, maxSize);
          if last.More? {
            RunsOn(last.parser, initial, msg, i + 1, s, at + 2, maxSize);
          }
        }
      } else {
        OneByte(p, initial, msg, i);
        assert s[at + 1..] == s[at..][1..] == Stuffed(msg, i + 1) + END;
        var next := Step(p, msg[i], maxSize);
        if next.More? {
          RunsOn(next.parser, initial, msg, i + 1, s, at + 1, maxSize);
        }
      }
    }
  }

  /** Transparency: a stuffed message with its end marker, cut into pieces in any way, yields the
      initial buffer and the message, and that at the very last byte; a message that begins with
      a dot keeps the doubled one. It is refused exactly if the result exceeds the size limit. */
  lemma Transparency(initial: seq<Byte>, msg: seq<Byte>, chunks: seq<seq<Byte>>, maxSize: nat)
    requires Concat(chunks) == Stuffed(msg, 0) + END
    ensures var (r, used) := Feed(Parser(initial, Text), chunks, maxSize);
            if |initial + Kept(msg)| <= maxSize then r == Complete(initial + Kept(msg)) && used == |Concat(chunks)|
            else r == TooLong
    ensures Feed(Parser(initial, Text), chunks, maxSize).0 == Complete(initial + msg) <==>
            |initial + msg| <= maxSize && (msg == [] || msg[0] != DOT)
  {
    var s := Concat(chunks);
    FeedIsRun(Parser(initial, Text), chunks, maxSize);
    assert s[0..] == s && msg[..0] == [];
    RunsOn(Parser(initial, Text), initial, msg, 0, s, 0, maxSize);
  }

  /** A message of one dot arrives as two. */
  lemma LeadingDot()
    ensures var msg := [DOT];
            Feed(Parser([], Text), [Stuffed(msg, 0) + END], 2).0 == Complete([DOT, DOT])
  {
    var msg := [DOT];
    var chunks := [Stuffed(msg, 0) + END];
    assert Concat(chunks) == Stuffed(msg, 0) + END;
    Transparency([], msg, chunks, 2);
    assert [] + Kept(msg) == [DOT, DOT];
  }

  // ----- Any bytes at all

  ghost predicate AfterLine(s: seq<Byte>, i: nat)
    requires i <= |s|
  {
    i >= 2 && s[i - 2] == CR && s[i - 1] == LF
  }

  ghost predicate AfterDot(s: seq<Byte>, i: nat)
    requires i <= |s|
  {
    i >= 1 && AfterLine(s, i - 1) && s[i - 1] == DOT
  }

  /** A line that consists of a dot ends before position `i`. */
  ghost predicate AfterEnd(s: seq<Byte>, i: nat)
    requires i <= |s|
  {
    i >= 2 && AfterDot(s, i - 2) && AfterLine(s, i)
  }

  /** The bytes that do not reach the message: a dot that starts a line, unless a CR or LF follows it; and a CR
      after a dot that starts a line, if another CR follows it. */
  ghost predicate IsDropped(s: seq<Byte>, i: nat)
    requires i < |s|
  {
    && i + 1 < |s|
    && if AfterLine(s, i) then s[i] == DOT && s[i + 1] != CR && s[i + 1] != LF
       else AfterDot(s, i) && s[i] == CR && s[i + 1] == CR
  }

  /** Those of the first `n` bytes that reach the message. */
  ghost function Passed(s: seq<Byte>, n: nat): seq<Byte>
    requires n <= |s|
  {
    if n == 0 then [] else Passed(s, n - 1) + if IsDropped(s, n - 1) then [] else [s[n - 1]]
  }

  /** The state after bytes without an end. */
  ghost function StateOf(s: seq<Byte>, i: nat): State
    requires i <= |s|
  {
    if AfterLine(s, i) then CrLf
    else if AfterDot(s, i) then CrLfDot
    else if i > 0 && s[i - 1] == CR then if AfterDot(s, i - 1) then CrLfDotCr else Cr
    else Text
  }

  /** The parser after the first `i` bytes. */
  ghost predicate HasRead(p: Parser, initial: seq<Byte>, s: seq<Byte>, i: nat)
    requires i <= |s|
  {
    p.state == StateOf(s, i) && p.buf + Held(p.state) == initial + Passed(s[..i], i)
  }

  /** Whether a byte is dropped is settled by the byte after it. */
  lemma {:induction false} PassedEarly(s: seq<Byte>, m: nat, n: nat)
    requires n < m <= |s|
    ensures Passed(s[..m], n) == Passed(s, n)
    decreases n
  {
    if n > 0 {
      PassedEarly(s, m, n - 1);
      assert IsDropped(s[..m], n - 1) <==> IsDropped(s, n - 1);
    }
  }

  /** What one more byte adds: itself, in place of the last one if that is dropped now. */
  lemma PassedNext(s: seq<Byte>, i: nat)
    requires i < |s|
    ensures var before, after := Passed(s[..i], i), Passed(s[..i + 1], i + 1);
            && (i > 0 ==> |before| > 0 && before[|before| - 1] == s[i - 1])
            && after == (if i > 0 && IsDropped(s, i - 1) then before[..|before| - 1] else before) + [s[i]]
  {
    if i > 0 {
      PassedEarly(s, i, i - 1);
      PassedEarly(s, i + 1, i - 1);
      assert !IsDropped(s[..i], i - 1);
      assert IsDropped(s[..i + 1], i - 1) <==> IsDropped(s, i - 1);
    }
    assert !IsDropped(s[..i + 1], i);
    PassedSplits(s, i);
  }

  lemma PassedSplits(s: seq<Byte>, i: nat)
    requires i < |s|
    ensures var t := s[..i + 1];
            && Passed(t, i + 1) == Passed(t, i) + [s[i]]
            && (i > 0 ==> Passed(s[..i], i) == Passed(s[..i], i - 1) + [s[i - 1]])
  {
  }

  /** A byte after which the one before it is dropped. */
  ghost predicate DropsHeld(state: State, ch: Byte) {
    if state == CrLfDot then ch != CR && ch != LF else state == CrLfDotCr && ch == CR
  }

  lemma MoveShifts(state: State, ch: Byte)
    requires !(state == CrLfDotCr && ch == LF)
    ensures DropsHeld(state, ch) ==> Held(state) != []
    ensures var (more, next) := Move(state, ch);
            var held := Held(state);
            (if DropsHeld(state, ch) then held[..|held| - 1] else held) + [ch] == more + Held(next)
  {
  }

  lemma NextState(s: seq<Byte>, i: nat)
    requires i < |s|
    ensures AfterEnd(s, i + 1) <==> StateOf(s, i) == CrLfDotCr && s[i] == LF
    ensures !AfterEnd(s, i + 1) ==> Move(StateOf(s, i), s[i]).1 == StateOf(s, i + 1)
    ensures i > 0 ==> (IsDropped(s, i - 1) <==> DropsHeld(StateOf(s, i), s[i]))
  {
  }

  lemma ReadsByte(p: Parser, initial: seq<Byte>, s: seq<Byte>, i: nat)
    requires i < |s| && HasRead(p, initial, s, i) && !AfterEnd(s, i + 1)
    ensures !(p.state == CrLfDotCr && s[i] == LF)
    ensures var (more, state) := Move(p.state, s[i]); HasRead(Parser(p.buf + more, state), initial, s, i + 1)
  {
    NextState(s, i);
    PassedNext(s, i);
    MoveShifts(p.state, s[i]);
    var (more, state) := Move(p.state, s[i]);
    Shifts(p.buf, Held(p.state), initial, Passed(s[..i], i), DropsHeld(p.state, s[i]), s[i], more, Held(state));
  }

  /** The byte goes to the end of what was read, in place of the last byte if that is dropped. */
  lemma Shifts(buf: seq<Byte>, held: seq<Byte>, initial: seq<Byte>, passed: seq<Byte>, drops: bool, ch: Byte,
               more: seq<Byte>, held': seq<Byte>)
    requires buf + held == initial + passed && (drops ==> held != [] && passed != [])
    requires (if drops then held[..|held| - 1] else held) + [ch] == more + held'
    ensures (buf + more) + held' == initial + ((if drops then passed[..|passed| - 1] else passed) + [ch])
  {
    var left := if drops then held[..|held| - 1] else held;
    var kept := if drops then passed[..|passed| - 1] else passed;
    assert buf + left == initial + kept by {
      assert drops ==> buf + left == (buf + held)[..|buf + held| - 1];
    }
    assert (buf + more) + held' == buf + (left + [ch]) == (initial + kept) + [ch];
  }

  /** How much of the first `i` bytes has reached the buffer. */
  ghost function Size(s: seq<Byte>, i: nat): int
    requires i <= |s|
  {
    |Passed(s[..i], i)| - |Held(StateOf(s, i))|
  }

  lemma SizeNext(s: seq<Byte>, i: nat)
    requires i < |s| && !AfterEnd(s, i + 1)
    ensures Size(s, i) <= Size(s, i + 1)
  {
    NextState(s, i);
    PassedNext(s, i);
    MoveShifts(StateOf(s, i), s[i]);
  }

  lemma {:induction false} SizeGrows(s: seq<Byte>, i: nat, j: nat)
    requires i <= j <= |s| && forall k :: i < k <= j ==> !AfterEnd(s, k)
    ensures Size(s, i) <= Size(s, j)
    decreases j
  {
    if i < j {
      SizeGrows(s, i, j - 1);
      SizeNext(s, j - 1);
    }
  }

  /** Reading stops after `n` bytes: at the first end marker, or at the end of the bytes. */
  ghost predicate Stops(s: seq<Byte>, n: nat) {
    n <= |s| && (n == |s| || AfterEnd(s, n)) && forall i :: 0 <= i < n ==> !AfterEnd(s, i)
  }

  /** The outcome of reading the first `n` bytes. */
  ghost predicate IsOutcome(r: Outcome, initial: seq<Byte>, s: seq<Byte>, n: nat, maxSize: nat)
    requires n <= |s|
  {
    if AfterEnd(s, n) then
      var data := initial + Passed(s, n - 5);
      r == if |data| <= maxSize then Complete(data) else TooLong
    else if n == 0 || |initial| + Size(s, n) <= maxSize then r.More? && HasRead(r.parser, initial, s, n)
    else r == TooLong
  }

  lemma PassesOne(s: seq<Byte>, i: nat)
    requires i < |s| && !IsDropped(s, i)
    ensures Passed(s, i + 1) == Passed(s, i) + [s[i]]
  {
  }

  lemma MarkerIsKept(s: seq<Byte>, i: nat)
    requires i < |s| && AfterEnd(s, i + 1)
    ensures i >= 4 && !IsDropped(s, i - 4) && !IsDropped(s, i - 3) && !IsDropped(s, i - 2) && !IsDropped(s[..i], i - 1)
    ensures s[i - 4] == CR && s[i - 3] == LF && s[i - 2] == DOT && s[i - 1] == CR
  {
  }

  /** Nothing of the end marker is dropped. */
  lemma MarkerPasses(s: seq<Byte>, i: nat)
    requires i < |s| && AfterEnd(s, i + 1)
    ensures i >= 4 && Passed(s[..i], i) == Passed(s, i - 4) + [CR, LF, DOT, CR]
  {
    MarkerIsKept(s, i);
    PassesOne(s, i - 4);
    PassesOne(s, i - 3);
    PassesOne(s, i - 2);
    PassesOne(s[..i], i - 1);
    PassedEarly(s, i, i - 1);
  }

  /** Before the end marker, all but the bytes of the marker itself have reached the buffer. */
  lemma AtEnd(p: Parser, initial: seq<Byte>, s: seq<Byte>, i: nat)
    requires i < |s| && HasRead(p, initial, s, i) && AfterEnd(s, i + 1)
    ensures p.state == CrLfDotCr && s[i] == LF && p.buf == initial + Passed(s, i - 4)
  {
    NextState(s, i);
    MarkerPasses(s, i);
    FrontsEqual(p.buf, initial + Passed(s, i - 4), Held(CrLfDotCr));
    assert (initial + Passed(s, i - 4)) + Held(CrLfDotCr) == initial + (Passed(s, i - 4) + [CR, LF, DOT, CR]);
  }

  lemma FrontsEqual(a: seq<Byte>, b: seq<Byte>, end: seq<Byte>)
    ensures a + end == b + end ==> a == b
  {
    if a + end == b + end {
      assert a == (a + end)[..|a|] && b == (b + end)[..|b|];
    }
  }

  lemma EndSize(s: seq<Byte>, n: nat)
    requires 0 < n <= |s| && AfterEnd(s, n)
    ensures n >= 5 && |Passed(s, n - 5)| == Size(s, n - 1)
  {
    MarkerPasses(s, n - 1);
    NextState(s, n - 1);
  }

  /** A buffer that is too long is too long for the outcome as well. */
  lemma StaysTooLong(initial: seq<Byte>, s: seq<Byte>, i: nat, n: nat, maxSize: nat)
    requires 0 < i <= n && Stops(s, n) && !AfterEnd(s, i) && |initial| + Size(s, i) > maxSize
    ensures IsOutcome(TooLong, initial, s, n, maxSize)
  {
    if AfterEnd(s, n) {
      EndSize(s, n);
      SizeGrows(s, i, n - 1);
    } else {
      SizeGrows(s, i, n);
    }
  }

  lemma {:induction false} ReadsOn(p: Parser, initial: seq<Byte>, s: seq<Byte>, i: nat, n: nat, maxSize: nat)
    requires i <= n && Stops(s, n) && !AfterEnd(s, i)
    requires HasRead(p, initial, s, i) && (i == 0 || |p.buf| <= maxSize)
    ensures var (r, used) := Run(p, s, i, maxSize); IsOutcome(r, initial, s, n, maxSize) && (r != TooLong ==> used == n)
    decreases n - i
  {
    if i < n {
      if AfterEnd(s, i + 1) {
        AtEnd(p, initial, s, i);
      } else {
        ReadsByte(p, initial, s, i);
        var next := Step(p, s[i], maxSize);
        if next.More? {
          ReadsOn(next.parser, initial, s, i + 1, n, maxSize);
        } else {
          StaysTooLong(initial, s, i + 1, n, maxSize);
        }
      }
    }
  }

  /** Any bytes at all, in any pieces: the message is what comes before the first line that consists of a dot,
      without the bytes that are dropped, and it is refused exactly if it exceeds the size limit. */
  lemma ParsesExactly(initial: seq<Byte>, chunks: seq<seq<Byte>>, n: nat, maxSize: nat)
    requires Stops(Concat(chunks), n)
    ensures var (r, used) := Feed(Parser(initial, Text), chunks, maxSize);
            IsOutcome(r, initial, Concat(chunks), n, maxSize) && (r != TooLong ==> used == n)
  {
    var s := Concat(chunks);
    FeedIsRun(Parser(initial, Text), chunks, maxSize);
    assert s[..0] == [] && initial + [] == initial;
    ReadsOn(Parser(initial, Text), initial, s, 0, n, maxSize);
  }

  /** A CR that is lost: it follows the dot of a line and comes before another CR. */
  lemma LostReturn()
    ensures Feed(Parser([], Text), [[CR, LF, DOT, CR] + END], 3).0 == Complete([CR, LF, DOT])
  {
    var s := [CR, LF, DOT, CR] + END;
    var n := |s|;
    assert Concat([s]) == s;
    assert forall i :: 0 <= i < n ==> !AfterEnd(s, i);
    assert Passed(s, 0) == [] && Passed(s, 1) == [CR] && Passed(s, 2) == [CR, LF];
    assert Passed(s, 3) == [CR, LF, DOT] == Passed(s, 4);
    assert [] + Passed(s, 4) == [CR, LF, DOT];
    ParsesExactly([], [s], n, 3);
  }
}

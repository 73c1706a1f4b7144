/** Frames on an RPC connection: a length and that many bytes. What a payload means to the cluster is
    not part of this model. */
module RpcFraming {
  import opened Common
  import opened Leb128

  type Payload = seq<Byte>

  const MAX_FRAME_LENGTH: nat := 150 * 1024 * 1024

  /** Bytes to wait for before a length is read. */
  const MARKER: nat := 4

  datatype Decoded = NotYet | Frame(payload: Payload, used: nat) | Invalid

  function EncodeFrame(p: Payload): seq<Byte> {
    Encode(|p|) + p
  }

  function DecodeFrame(src: seq<Byte>): Decoded {
    if |src| < MARKER then NotYet
    else
      match Read(src, 0)
      case None => Invalid
      case Some((length, read)) =>
        if length > MAX_FRAME_LENGTH then Invalid
        else if |src| < read + length then NotYet
        else Frame(src[read..read + length], read + length)
  }

  lemma FrameIsInside(src: seq<Byte>)
    requires DecodeFrame(src).Frame?
    ensures 0 < DecodeFrame(src).used <= |src|
  {
    DecodeAdvances(src, 0, GROUPS);
  }

  /** All frames at the front of a buffer, and what is left of it. */
  datatype Drained = Drained(payloads: seq<Payload>, rest: seq<Byte>, ok: bool)

  function Drain(src: seq<Byte>): Drained
    decreases |src|
  {
    match DecodeFrame(src)
    case NotYet => Drained([], src, true)
    case Invalid => Drained([], src, false)
    case Frame(payload, used) =>
      FrameIsInside(src);
      var later := Drain(src[used..]);
      later.(payloads := [payload] + later.payloads)
  }

  /** The receive buffer of a connection. */
  class Receiver {
    var src: seq<Byte>

    constructor ()
      ensures src == []
    {
      src := [];
    }

    method DecodeOne() returns (r: Decoded)
      modifies this
      ensures r == DecodeFrame(old(src))
      ensures src == if r.Frame? then (FrameIsInside(old(src)); old(src)[r.used..]) else old(src)
    {
      r := DecodeFrame(src);
      if r.Frame? {
        FrameIsInside(src);
        src := src[r.used..];
      }
    }

    /** Takes in some bytes and decodes as many frames as there are. */
    method Receive(bytes: seq<Byte>) returns (payloads: seq<Payload>, ok: bool)
      modifies this
      ensures Drained(payloads, src, ok) == Drain(old(src) + bytes)
    {
      src := src + bytes;
      payloads := [];
      ghost var all := Drain(src);
      assert [] + all.payloads == all.payloads;
      while true
        invariant all == Drain(src).(payloads := payloads + Drain(src).payloads)
        decreases |src|
      {
        ghost var before := src;
        assert payloads + [] == payloads;
        var r := DecodeOne();
        match r {
          case NotYet => return payloads, true;
          case Invalid => return payloads, false;
          case Frame(payload, _) =>
            FrameIsInside(before);
            ghost var more := Drain(src).payloads;
            assert payloads + ([payload] + more) == (payloads + [payload]) + more;
            payloads := payloads + [payload];
        }
      }
    }
  }

  // ----- A stream of frames

  function Stream(ps: seq<Payload>): seq<Byte> {
    if ps == [] then [] else EncodeFrame(ps[0]) + Stream(ps[1..])
  }

  ghost predicate Allowed(ps: seq<Payload>) {
    forall p :: p in ps ==> |p| <= MAX_FRAME_LENGTH
  }

  lemma MarkerIsEnough(n: nat)
    requires n <= MAX_FRAME_LENGTH
    ensures 1 <= |Encode(n)| <= MARKER
  {
    assert Power(1) == 0x80 && Power(2) == 0x4000 && Power(3) == 0x20_0000 && Power(4) == 0x1000_0000;
    EncodedLength(n, MARKER);
  }

  /** At the front of a stream: a frame is decoded as soon as it is complete and the buffer holds as
      many bytes as a length may have. */
  lemma FirstFrame(src: seq<Byte>, ps: seq<Payload>)
    requires ps != [] && Allowed(ps) && src <= Stream(ps)
    ensures var frame := EncodeFrame(ps[0]);
            DecodeFrame(src) == if |src| >= MARKER && |src| >= |frame| then Frame(ps[0], |frame|) else NotYet
  {
    var p := ps[0];
    assert p in ps;
    var code := Encode(|p|);
    MarkerIsEnough(|p|);
    if |src| >= MARKER {
      assert src[..|code|] == Stream(ps)[..|code|] == code;
      assert src[0..0 + |code|] == src[..|code|];
      ReadsBack(src, 0, |p|);
      if |src| >= |code| + |p| {
        assert src[|code|..|code| + |p|] == Stream(ps)[|code|..|code| + |p|] == p;
      }
    }
  }

  /** A frame of four bytes or more has a payload of three or more. */
  lemma ShortCode(n: nat)
    ensures n + |Encode(n)| >= MARKER ==> n >= 3
  {
  }

  /** Draining has decoded the first `n` payloads, and `missing` bytes of the others are not there. */
  ghost predicate Leaves(ps: seq<Payload>, n: nat, missing: int, d: Drained) {
    && n <= |ps| && d.ok && d.payloads == ps[..n]
    && d.rest <= Stream(ps[n..]) && |Stream(ps[n..])| - |d.rest| == missing
    && DecodeFrame(d.rest) == NotYet && (n == |ps| > 0 ==> |ps[n - 1]| >= 3)
  }

  lemma LeavesMore(ps: seq<Payload>, n: nat, missing: int, d: Drained)
    requires ps != [] && Leaves(ps[1..], n, missing, d) && (|ps| == 1 ==> |ps[0]| >= 3)
    ensures Leaves(ps, n + 1, missing, d.(payloads := [ps[0]] + d.payloads))
  {
    assert ps[1..][n..] == ps[n + 1..];
    assert [ps[0]] + ps[1..][..n] == ps[..n + 1];
  }

  lemma FrontOff(src: seq<Byte>, ps: seq<Payload>)
    requires ps != [] && src <= Stream(ps) && |EncodeFrame(ps[0])| <= |src|
    ensures var used := |EncodeFrame(ps[0])|;
            && src[used..] <= Stream(ps[1..]) && |Stream(ps)| - |src| == |Stream(ps[1..])| - |src[used..]|
            && (|ps| == 1 ==> |src| == used)
  {
    var used := |EncodeFrame(ps[0])|;
    assert Stream(ps)[used..] == Stream(ps[1..]);
    assert src[used..] <= Stream(ps)[used..];
  }

  lemma {:induction false} DrainsPrefix(src: seq<Byte>, ps: seq<Payload>) returns (n: nat)
    requires Allowed(ps) && src <= Stream(ps)
    ensures Leaves(ps, n, |Stream(ps)| - |src|, Drain(src))
    decreases |ps|
  {
    n := 0;
    assert ps[0..] == ps;
    if ps != [] {
      FirstFrame(src, ps);
      if DecodeFrame(src).Frame? {
        var used := |EncodeFrame(ps[0])|;
        FrontOff(src, ps);
        ShortCode(|ps[0]|);
        assert forall p :: p in ps[1..] ==> p in ps;
        var m := DrainsPrefix(src[used..], ps[1..]);
        LeavesMore(ps, m, |Stream(ps)| - |src|, Drain(src[used..]));
        n := m + 1;
      }
    }
  }

  /** The payloads received from bytes that arrive in pieces, what is left in the buffer, and whether
      all went well. */
  function Feed(src: seq<Byte>, chunks: seq<seq<Byte>>): Drained
    decreases |chunks|
  {
    if chunks == [] then Drained([], src, true)
    else
      var first := Drain(src + chunks[0]);
      if !first.ok then first
      else
        var later := Feed(first.rest, chunks[1..]);
        later.(payloads := first.payloads + later.payloads)
  }

  lemma LeavesLater(ps: seq<Payload>, n: nat, missing: int, d: Drained, m: nat, d': Drained)
    requires Leaves(ps, n, missing, d) && Leaves(ps[n..], m, 0, d')
    ensures Leaves(ps, n + m, 0, d'.(payloads := d.payloads + d'.payloads))
  {
    assert ps[n..][m..] == ps[n + m..];
    assert ps[..n] + ps[n..][..m] == ps[..n + m];
  }

  /** Feeding leaves nothing but a frame that cannot be decoded yet. */
  ghost predicate Fed(src: seq<Byte>, ps: seq<Payload>, chunks: seq<seq<Byte>>) {
    exists n: nat :: Leaves(ps, n, 0, Feed(src, chunks))
  }

  lemma {:induction false} FeedsAll(src: seq<Byte>, ps: seq<Payload>, chunks: seq<seq<Byte>>)
    requires Allowed(ps) && src + Concat(chunks) == Stream(ps) && DecodeFrame(src) == NotYet
    ensures Fed(src, ps, chunks)
    decreases |chunks|
  {
    if chunks == [] {
      FeedNothing(src, ps, chunks);
    } else {
      var m, d := FeedsFirst(src, ps, chunks);
      FeedsAll(d.rest, ps[m..], chunks[1..]);
      FeedNext(src, ps, chunks, m, d);
    }
  }

  lemma FeedsFirst(src: seq<Byte>, ps: seq<Payload>, chunks: seq<seq<Byte>>) returns (n: nat, d: Drained)
    requires Allowed(ps) && chunks != [] && src + Concat(chunks) == Stream(ps)
    ensures d == Drain(src + chunks[0]) && Leaves(ps, n, |Concat(chunks[1..])|, d)
    ensures Allowed(ps[n..]) && d.rest + Concat(chunks[1..]) == Stream(ps[n..])
  {
    var more, later := src + chunks[0], Concat(chunks[1..]);
    assert src + (chunks[0] + later) == more + later;
    n := DrainsPart(more, ps, later);
    d := Drain(more);
  }

  lemma FeedNothing(src: seq<Byte>, ps: seq<Payload>, chunks: seq<seq<Byte>>)
    requires chunks == [] && src + Concat(chunks) == Stream(ps) && DecodeFrame(src) == NotYet
    ensures Fed(src, ps, chunks)
  {
    assert src + [] == src && ps[0..] == ps;
    var n: nat := 0;
    assert Leaves(ps, n, 0, Feed(src, chunks));
  }

  lemma FeedNext(src: seq<Byte>, ps: seq<Payload>, chunks: seq<seq<Byte>>, n: nat, d: Drained)
    requires chunks != [] && d == Drain(src + chunks[0]) && Leaves(ps, n, |Concat(chunks[1..])|, d)
    requires Fed(d.rest, ps[n..], chunks[1..])
    ensures Fed(src, ps, chunks)
  {
    var later := Feed(d.rest, chunks[1..]);
    var m: nat :| Leaves(ps[n..], m, 0, later);
    LeavesLater(ps, n, |Concat(chunks[1..])|, d, m, later);
    assert Feed(src, chunks) == later.(payloads := d.payloads + later.payloads);
  }

  lemma DrainsPart(src: seq<Byte>, ps: seq<Payload>, later: seq<Byte>) returns (n: nat)
    requires Allowed(ps) && src + later == Stream(ps)
    ensures Leaves(ps, n, |later|, Drain(src))
    ensures Allowed(ps[n..]) && Drain(src).rest + later == Stream(ps[n..])
  {
    n := DrainsPrefix(src, ps);
    DrainedPart(src, Drain(src).rest, ps, n, later);
    assert forall p :: p in ps[n..] ==> p in ps;
  }

  lemma {:induction false} StreamSplits(ps: seq<Payload>, n: nat)
    requires n <= |ps|
    ensures Stream(ps) == Stream(ps[..n]) + Stream(ps[n..])
    decreases n
  {
    if n == 0 {
      assert ps[..0] == [] && ps[0..] == ps;
    } else {
      StreamSplits(ps[1..], n - 1);
      assert ps[1..][..n - 1] == ps[..n][1..] && ps[1..][n - 1..] == ps[n..];
    }
  }

  /** What is left of a buffer goes on as the rest of the stream does. */
  lemma DrainedPart(src: seq<Byte>, rest: seq<Byte>, ps: seq<Payload>, n: nat, later: seq<Byte>)
    requires n <= |ps| && src + later == Stream(ps) && rest <= Stream(ps[n..])
    requires |Stream(ps)| - |src| == |Stream(ps[n..])| - |rest|
    ensures rest + later == Stream(ps[n..])
  {
    StreamSplits(ps, n);
    var tail := Stream(ps[n..]);
    assert later == Stream(ps)[|src|..];
    assert Stream(ps)[|src|..] == tail[|rest|..];
  }

  lemma {:induction false} LastFrame(ps: seq<Payload>)
    requires ps != []
    ensures |Stream(ps)| >= |EncodeFrame(ps[|ps| - 1])|
    decreases |ps|
  {
    if |ps| > 1 {
      LastFrame(ps[1..]);
    }
  }

  /** Framing: any list of payloads within the length limit, sent as frames and received in any
      pieces, is decoded in order and without error. Everything is decoded exactly if the last
      payload has at least three bytes, because a shorter frame waits for the next one. */
  lemma Framing(ps: seq<Payload>, chunks: seq<seq<Byte>>)
    requires Allowed(ps) && Concat(chunks) == Stream(ps)
    ensures var d := Feed([], chunks);
            && d.ok && d.payloads <= ps && d.rest == Stream(ps[|d.payloads|..])
            && (d.payloads == ps <==> ps == [] || |ps[|ps| - 1]| >= 3)
  {
    assert [] + Concat(chunks) == Concat(chunks);
    FeedsAll([], ps, chunks);
    var n: nat :| Leaves(ps, n, 0, Feed([], chunks));
    if n < |ps| {
      WaitingFrame(ps, n, Feed([], chunks));
    } else {
      assert ps[..n] == ps;
    }
  }

  /** A complete frame that is not decoded is the last one and short. */
  lemma WaitingFrame(ps: seq<Payload>, n: nat, d: Drained)
    requires Allowed(ps) && n < |ps| && Leaves(ps, n, 0, d)
    ensures |ps[|ps| - 1]| < 3
  {
    var left := ps[n..];
    assert forall p :: p in left ==> p in ps;
    FirstFrame(d.rest, left);
    LastFrame(left);
    assert left[|left| - 1] == ps[|ps| - 1];
  }

  /** The payloads are taken out of the buffer, and what follows is refused. */
  ghost predicate Refuses(src: seq<Byte>, ps: seq<Payload>) {
    !Drain(src).ok && Drain(src).payloads == ps
  }

  lemma RefusesAtOnce(ps: seq<Payload>, bad: seq<Byte>)
    requires ps == [] && DecodeFrame(bad) == Invalid
    ensures Refuses(Stream(ps) + bad, ps)
  {
    assert Stream(ps) + bad == bad;
  }

  lemma RefusesNext(p: Payload, later: seq<Payload>, rest: seq<Byte>)
    requires |p| <= MAX_FRAME_LENGTH && |rest| >= MARKER && Refuses(rest, later)
    ensures Refuses(EncodeFrame(p) + rest, [p] + later)
  {
    FrameInFront(p, rest);
  }

  lemma StreamFront(ps: seq<Payload>, bad: seq<Byte>)
    requires ps != []
    ensures Stream(ps) + bad == EncodeFrame(ps[0]) + (Stream(ps[1..]) + bad) && ps == [ps[0]] + ps[1..]
  {
    var frame, rest := EncodeFrame(ps[0]), Stream(ps[1..]);
    assert (frame + rest) + bad == frame + (rest + bad);
  }

  lemma {:induction false} RefusesAfter(ps: seq<Payload>, bad: seq<Byte>)
    requires Allowed(ps) && |bad| >= MARKER && DecodeFrame(bad) == Invalid
    ensures Refuses(Stream(ps) + bad, ps)
    decreases |ps|
  {
    if ps == [] {
      RefusesAtOnce(ps, bad);
    } else {
      assert forall p :: p in ps[1..] ==> p in ps;
      RefusesAfter(ps[1..], bad);
      StreamFront(ps, bad);
      RefusesNext(ps[0], ps[1..], Stream(ps[1..]) + bad);
    }
  }

  /** A length beyond the limit is refused as soon as it is read, after all frames before it. */
  lemma OversizedFrame(ps: seq<Payload>, length: U64, later: seq<Byte>)
    requires Allowed(ps) && length > MAX_FRAME_LENGTH
    ensures Refuses(Stream(ps) + (Encode(length) + later), ps)
  {
    var bad := Encode(length) + later;
    assert bad[0..0 + |Encode(length)|] == Encode(length);
    LongCode(length);
    ReadsBack(bad, 0, length);
    RefusesAfter(ps, bad);
  }

  /** A complete frame with at least four bytes in the buffer is decoded, whatever follows. */
  lemma FrameInFront(p: Payload, rest: seq<Byte>)
    requires |p| <= MAX_FRAME_LENGTH && |EncodeFrame(p) + rest| >= MARKER
    ensures DecodeFrame(EncodeFrame(p) + rest) == Frame(p, |EncodeFrame(p)|)
    ensures (EncodeFrame(p) + rest)[|EncodeFrame(p)|..] == rest
  {
    var s, code := EncodeFrame(p) + rest, Encode(|p|);
    assert s[0..0 + |code|] == code && s[|code|..|code| + |p|] == p;
    ReadsBack(s, 0, |p|);
  }

  lemma LongCode(length: nat)
    requires length > MAX_FRAME_LENGTH
    ensures |Encode(length)| >= MARKER
  {
    assert |Encode(length / 0x80 / 0x80)| >= 2;
    assert |Encode(length / 0x80)| >= 3;
  }

  /** An empty payload is not delivered although its frame is complete. */
  lemma ShortFrame()
    ensures Feed([], [EncodeFrame([])]).payloads == []
  {
    var ps: seq<Payload> := [[]];
    assert Stream(ps) == EncodeFrame([]) + Stream([]) == EncodeFrame([]);
    assert Concat([EncodeFrame([])]) == EncodeFrame([]);
    Framing(ps, [EncodeFrame([])]);
  }
}

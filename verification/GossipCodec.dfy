/** Gossip messages on the wire: one number tells both the kind of a message and how many peers it
    lists. Encryption and sockets are not part of this model. */
module GossipCodec {
  import opened Common
  import opened Leb128

  datatype PeerStatus = PeerStatus(peerId: U64, epoch: U64, generation: U64, lastLogTerm: U64, lastLogIndex: U64)

  type Port = x: nat | x < 0x1_0000

  datatype Request =
    | Join(id: U64, port: Port)
    | JoinReply(id: U64)
    | Ping(peers: seq<PeerStatus>)
    | Pong(peers: seq<PeerStatus>)
    | Leave(peers: seq<PeerStatus>)

  /** A malformed message is rejected; reserving room for a negative number of peers aborts. */
  datatype Outcome = Accepted(request: Request) | Rejected | Aborted

  const JOIN: nat := 0
  const JOIN_REPLY: nat := 1
  const PING: nat := 2
  const PONG: nat := 3
  const LEAVE: nat := 4

  const UDP_MAX_PAYLOAD: nat := 65500
  const PEER_STATUS_SIZE: nat := 40

  // ----- Encoding

  function Numbers(xs: seq<U64>): seq<Byte> {
    if xs == [] then [] else Encode(xs[0]) + Numbers(xs[1..])
  }

  function Fields(p: PeerStatus): seq<U64> {
    [p.epoch, p.generation, p.lastLogTerm, p.lastLogIndex]
  }

  function PeerBytes(p: PeerStatus): seq<Byte> {
    Encode(p.peerId) + Numbers(Fields(p))
  }

  function PeersBytes(ps: seq<PeerStatus>): seq<Byte> {
    if ps == [] then [] else PeerBytes(ps[0]) + PeersBytes(ps[1..])
  }

  /** Messages that ask for or confirm joining carry the time at their end. */
  function ToBytes(r: Request, time: U64): seq<Byte> {
    match r
    case Join(id, port) => [JOIN] + Encode(id) + Encode(port) + Encode(time)
    case JoinReply(id) => [JOIN_REPLY] + Encode(id) + Encode(time)
    case Ping(peers) => Encode(PING + |peers|) + PeersBytes(peers)
    case Pong(peers) => Encode(PONG + |peers|) + PeersBytes(peers)
    case Leave(peers) => Encode(LEAVE + |peers|) + PeersBytes(peers)
  }

  // ----- Decoding

  /** A 16-bit number takes up to three bytes. */
  function ReadPort(s: seq<Byte>, i: nat): Option<(Port, nat)>
    requires i <= |s|
  {
    match Decode(s, i, 3)
    case None => None
    case Some((value, next)) => Some((value % 0x1_0000, next))
  }

  function ReadAt(s: seq<Byte>, i: nat): (r: Option<(U64, nat)>)
    requires i <= |s|
    ensures r.Some? ==> i < r.value.1 <= |s|
  {
    if Decode(s, i, GROUPS).Some? then DecodeAdvances(s, i, GROUPS); Read(s, i) else None
  }

  function ReadNumbers(s: seq<Byte>, i: nat, n: nat): (r: Option<(seq<U64>, nat)>)
    requires i <= |s|
    ensures r.Some? ==> |r.value.0| == n && i <= r.value.1 <= |s|
    decreases |s| - i + n
  {
    if n == 0 then Some(([], i))
    else
      match ReadAt(s, i)
      case None => None
      case Some((x, next)) =>
        match ReadNumbers(s, next, n - 1)
        case None => None
        case Some((xs, end)) => Some(([x] + xs, end))
  }

  /** The fields of a peer after its id. */
  function ReadPeer(s: seq<Byte>, i: nat, peerId: U64): (r: Option<(PeerStatus, nat)>)
    requires i <= |s|
    ensures r.Some? ==> i <= r.value.1 <= |s|
  {
    match ReadNumbers(s, i, 4)
    case None => None
    case Some((xs, end)) => Some((PeerStatus(peerId, xs[0], xs[1], xs[2], xs[3]), end))
  }

  /** Reads up to `count` peers: those read, and how many of the count were not there. */
  function ReadPeers(s: seq<Byte>, i: nat, count: nat): Option<(seq<PeerStatus>, nat)>
    requires i <= |s|
    decreases count
  {
    if count == 0 then Some(([], 0))
    else
      match ReadAt(s, i)
      case None => Some(([], count))
      case Some((peerId, next)) =>
        match ReadPeer(s, next, peerId)
        case None => None
        case Some((peer, next')) =>
          AddTo([peer], ReadPeers(s, next', count - 1))
  }

  function KindOf(peers: seq<PeerStatus>, left: nat): Outcome {
    if left == 0 then Accepted(Ping(peers))
    else if left == 1 then Accepted(Pong(peers))
    else if left == 2 then Accepted(Leave(peers))
    else Rejected
  }

  function DecodeJoin(s: seq<Byte>, i: nat): Outcome
    requires i <= |s|
  {
    match ReadAt(s, i)
    case None => Rejected
    case Some((id, j)) =>
      match ReadPort(s, j)
      case None => Rejected
      case Some((port, _)) => Accepted(Join(id, port))
  }

  function DecodeJoinReply(s: seq<Byte>, i: nat): Outcome
    requires i <= |s|
  {
    match ReadAt(s, i)
    case None => Rejected
    case Some((id, _)) => Accepted(JoinReply(id))
  }

  const MAX_COUNT: nat := UDP_MAX_PAYLOAD / PEER_STATUS_SIZE

  function DecodeWithPeers(s: seq<Byte>, i: nat, count: nat): Outcome
    requires i <= |s|
  {
    if count > MAX_COUNT then Rejected
    else if count < 2 then Aborted
    else
      match ReadPeers(s, i, count)
      case None => Rejected
      case Some((peers, left)) => KindOf(peers, left)
  }

  function FromBytes(s: seq<Byte>): Outcome {
    match ReadAt(s, 0)
    case None => Rejected
    case Some((kind, i)) =>
      if kind == JOIN then DecodeJoin(s, i)
      else if kind == JOIN_REPLY then DecodeJoinReply(s, i)
      else DecodeWithPeers(s, i, kind - PING)
  }

  /** The loop of the decoder: takes peers off until the count or the bytes are used up. */
  method DecodePeers(s: seq<Byte>, start: nat, count: nat) returns (r: Option<(seq<PeerStatus>, nat)>)
    requires start <= |s|
    ensures r == ReadPeers(s, start, count)
  {
    var i: nat, left: nat := start, count;
    var peers: seq<PeerStatus> := [];
    AddToNothing(ReadPeers(s, start, count));
    while left > 0
      invariant i <= |s|
      invariant ReadPeers(s, start, count) == AddTo(peers, ReadPeers(s, i, left))
      decreases left
    {
      var peerId := ReadAt(s, i);
      if peerId.None? {
        assert peers + [] == peers;
        return Some((peers, left));
      }
      var peer := ReadPeer(s, peerId.value.1, peerId.value.0);
      if peer.None? {
        return None;
      }
      Grow(peers, peer.value.0, ReadPeers(s, peer.value.1, left - 1));
      peers, i, left := peers + [peer.value.0], peer.value.1, left - 1;
    }
    assert peers + [] == peers;
    return Some((peers, left));
  }

  function AddTo(peers: seq<PeerStatus>, r: Option<(seq<PeerStatus>, nat)>): Option<(seq<PeerStatus>, nat)> {
    if r.None? then None else Some((peers + r.value.0, r.value.1))
  }

  lemma AddToNothing(r: Option<(seq<PeerStatus>, nat)>)
    ensures AddTo([], r) == r
  {
    if r.Some? {
      assert [] + r.value.0 == r.value.0;
    }
  }

  lemma Grow(peers: seq<PeerStatus>, peer: PeerStatus, r: Option<(seq<PeerStatus>, nat)>)
    ensures AddTo(peers, AddTo([peer], r)) == AddTo(peers + [peer], r)
  {
    if r.Some? {
      assert peers + ([peer] + r.value.0) == (peers + [peer]) + r.value.0;
    }
  }

  // ----- Round trip

  /** A number at the front of what is left is read, and the rest is left. */
  lemma ReadNext(s: seq<Byte>, i: nat, x: U64, rest: seq<Byte>)
    requires i <= |s| && s[i..] == Encode(x) + rest
    ensures var next := i + |Encode(x)|;
            next <= |s| && ReadAt(s, i) == Some((x, next)) && s[next..] == rest
  {
    var n := |Encode(x)|;
    assert s[i..i + n] == s[i..][..n] == Encode(x);
    ReadsBack(s, i, x);
    assert s[i + n..] == s[i..][n..];
  }

  lemma FirstNumber(s: seq<Byte>, i: nat, xs: seq<U64>, rest: seq<Byte>) returns (next: nat)
    requires i <= |s| && s[i..] == Numbers(xs) + rest && xs != []
    ensures next <= |s| && ReadAt(s, i) == Some((xs[0], next)) && s[next..] == Numbers(xs[1..]) + rest
  {
    var first, more := Encode(xs[0]), Numbers(xs[1..]);
    assert (first + more) + rest == first + (more + rest);
    ReadNext(s, i, xs[0], more + rest);
    next := i + |first|;
  }

  lemma ReadsNumber(s: seq<Byte>, i: nat, next: nat, xs: seq<U64>, end: nat)
    requires i <= |s| && next <= |s| && xs != [] && ReadAt(s, i) == Some((xs[0], next))
    requires ReadNumbers(s, next, |xs[1..]|) == Some((xs[1..], end))
    ensures ReadNumbers(s, i, |xs|) == Some((xs, end))
  {
    assert [xs[0]] + xs[1..] == xs;
  }

  lemma {:induction false} NumbersAreRead(s: seq<Byte>, i: nat, xs: seq<U64>, rest: seq<Byte>) returns (end: nat)
    requires i <= |s| && s[i..] == Numbers(xs) + rest
    ensures end <= |s| && ReadNumbers(s, i, |xs|) == Some((xs, end)) && s[end..] == rest
    decreases |xs|
  {
    if xs == [] {
      end := i;
    } else {
      var next := FirstNumber(s, i, xs, rest);
      end := NumbersAreRead(s, next, xs[1..], rest);
      ReadsNumber(s, i, next, xs, end);
    }
  }

  lemma PeerIsRead(s: seq<Byte>, i: nat, p: PeerStatus, rest: seq<Byte>) returns (next: nat, end: nat)
    requires i <= |s| && s[i..] == PeerBytes(p) + rest
    ensures next <= |s| && ReadAt(s, i) == Some((p.peerId, next))
    ensures end <= |s| && ReadPeer(s, next, p.peerId) == Some((p, end)) && s[end..] == rest
  {
    assert s[i..] == Encode(p.peerId) + (Numbers(Fields(p)) + rest);
    ReadNext(s, i, p.peerId, Numbers(Fields(p)) + rest);
    next := i + |Encode(p.peerId)|;
    end := NumbersAreRead(s, next, Fields(p), rest);
  }

  lemma ReadsPeer(s: seq<Byte>, i: nat, count: nat, next: nat, peer: PeerStatus, end: nat)
    requires i <= |s| && next <= |s| && end <= |s| && count > 0
    requires ReadAt(s, i) == Some((peer.peerId, next)) && ReadPeer(s, next, peer.peerId) == Some((peer, end))
    ensures ReadPeers(s, i, count) == AddTo([peer], ReadPeers(s, end, count - 1))
  {
  }

  /** One more peer is read before the others. */
  lemma OneMorePeer(s: seq<Byte>, i: nat, next: nat, end: nat, ps: seq<PeerStatus>, extra: nat)
    requires ps != [] && i <= |s| && next <= |s| && end <= |s|
    requires ReadAt(s, i) == Some((ps[0].peerId, next)) && ReadPeer(s, next, ps[0].peerId) == Some((ps[0], end))
    requires ReadPeers(s, end, |ps[1..]| + extra) == Some((ps[1..], extra))
    ensures ReadPeers(s, i, |ps| + extra) == Some((ps, extra))
  {
    ReadsPeer(s, i, |ps| + extra, next, ps[0], end);
    assert |ps| + extra - 1 == |ps[1..]| + extra;
    assert [ps[0]] + ps[1..] == ps;
  }

  /** All peers of a message are read, and what the count says beyond them is left over. */
  ghost predicate ArePeers(s: seq<Byte>, i: nat, ps: seq<PeerStatus>, extra: nat)
    requires i <= |s|
  {
    ReadPeers(s, i, |ps| + extra) == Some((ps, extra))
  }

  lemma {:induction false} PeersAreRead(s: seq<Byte>, i: nat, ps: seq<PeerStatus>, extra: nat)
    requires i <= |s| && s[i..] == PeersBytes(ps)
    ensures ArePeers(s, i, ps, extra)
    decreases |ps|
  {
    if ps == [] {
      NothingLeft(s, i, extra);
    } else {
      var end := FirstPeer(s, i, ps, extra);
      PeersAreRead(s, end, ps[1..], extra);
    }
  }

  lemma FirstPeer(s: seq<Byte>, i: nat, ps: seq<PeerStatus>, extra: nat) returns (end: nat)
    requires ps != [] && i <= |s| && s[i..] == PeersBytes(ps)
    ensures end <= |s| && s[end..] == PeersBytes(ps[1..])
    ensures ArePeers(s, end, ps[1..], extra) ==> ArePeers(s, i, ps, extra)
  {
    var next;
    next, end := PeerIsRead(s, i, ps[0], PeersBytes(ps[1..]));
    if ArePeers(s, end, ps[1..], extra) {
      OneMorePeer(s, i, next, end, ps, extra);
    }
  }

  lemma NothingLeft(s: seq<Byte>, i: nat, extra: nat)
    requires i <= |s| && s[i..] == []
    ensures ReadPeers(s, i, extra) == Some(([], extra))
  {
    assert i == |s|;
  }

  /** What the first number of a message with peers says beyond their count. */
  function Extra(r: Request): nat {
    if r.Pong? then 1 else if r.Leave? then 2 else 0
  }

  lemma PortIsRead(s: seq<Byte>, i: nat, port: Port, rest: seq<Byte>)
    requires i <= |s| && s[i..] == Encode(port) + rest
    ensures ReadPort(s, i).Some? && ReadPort(s, i).value.0 == port
  {
    assert Power(1) == 0x80 && Power(2) == 0x4000 && Power(3) == 0x20_0000;
    EncodedLength(port, 3);
    assert s[i..i + |Encode(port)|] == s[i..][..|Encode(port)|] == Encode(port);
    RoundTrip(s, i, port, 3);
  }

  /** Messages about joining always survive the round trip. */
  lemma JoinRoundTrip(r: Request, time: U64)
    requires r.Join? || r.JoinReply?
    ensures FromBytes(ToBytes(r, time)) == Accepted(r)
  {
    var s := ToBytes(r, time);
    assert s[0..] == s && Encode(JOIN) == [JOIN] && Encode(JOIN_REPLY) == [JOIN_REPLY];
    if r.Join? {
      assert s == Encode(JOIN) + (Encode(r.id) + (Encode(r.port) + Encode(time)));
      ReadNext(s, 0, JOIN, Encode(r.id) + (Encode(r.port) + Encode(time)));
      ReadNext(s, 1, r.id, Encode(r.port) + Encode(time));
      PortIsRead(s, 1 + |Encode(r.id)|, r.port, Encode(time));
    } else {
      assert s == Encode(JOIN_REPLY) + (Encode(r.id) + Encode(time));
      ReadNext(s, 0, JOIN_REPLY, Encode(r.id) + Encode(time));
      ReadNext(s, 1, r.id, Encode(time));
    }
  }

  /** Messages with peers survive it exactly if the number they begin with lies within the limits of
      the decoder: a ping needs two peers, a pong one, and there is a largest count for each. */
  lemma PeersRoundTrip(r: Request, time: U64)
    requires !r.Join? && !r.JoinReply? && |r.peers| + LEAVE < U64_LIMIT
    ensures var count := |r.peers| + Extra(r);
            FromBytes(ToBytes(r, time)) ==
            if count > MAX_COUNT then Rejected else if count < 2 then Aborted else Accepted(r)
  {
    var s, count := ToBytes(r, time), |r.peers| + Extra(r);
    var i := |Encode(PING + count)|;
    assert s[0..] == s == Encode(PING + count) + PeersBytes(r.peers);
    ReadNext(s, 0, PING + count, PeersBytes(r.peers));
    PeersAreRead(s, i, r.peers, Extra(r));
    assert FromBytes(s) == DecodeWithPeers(s, i, count);
    PeersAreDecoded(s, i, r);
  }

  lemma PeersAreDecoded(s: seq<Byte>, i: nat, r: Request)
    requires !r.Join? && !r.JoinReply? && i <= |s| && ArePeers(s, i, r.peers, Extra(r))
    ensures var count := |r.peers| + Extra(r);
            DecodeWithPeers(s, i, count) ==
            if count > MAX_COUNT then Rejected else if count < 2 then Aborted else Accepted(r)
  {
  }

  /** The decoder takes a message whose last `cut` peers are missing for one of the kind that this many peers
      fewer stand for, and rejects it if there is none: a ping without its last peer is a pong. */
  lemma CutMessage(r: Request, time: U64, cut: nat)
    requires !r.Join? && !r.JoinReply? && cut <= |r.peers|
    requires 2 <= |r.peers| + Extra(r) <= MAX_COUNT
    ensures var peers, left := r.peers[..|r.peers| - cut], cut + Extra(r);
            FromBytes(Encode(PING + |r.peers| + Extra(r)) + PeersBytes(peers)) ==
            if left == 0 then Accepted(Ping(peers))
            else if left == 1 then Accepted(Pong(peers))
            else if left == 2 then Accepted(Leave(peers))
            else Rejected
  {
    var peers, count := r.peers[..|r.peers| - cut], |r.peers| + Extra(r);
    var s, i := Encode(PING + count) + PeersBytes(peers), |Encode(PING + count)|;
    assert s[0..] == s;
    ReadNext(s, 0, PING + count, PeersBytes(peers));
    PeersAreRead(s, i, peers, cut + Extra(r));
    assert FromBytes(s) == DecodeWithPeers(s, i, count);
  }

  /** A ping with one peer, which the decoder of the other side does not survive. */
  lemma LonePing(peer: PeerStatus, time: U64)
    ensures FromBytes(ToBytes(Ping([peer]), time)) == Aborted
  {
    PeersRoundTrip(Ping([peer]), time);
  }
}

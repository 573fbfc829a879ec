/** The multiplexer: frames on the wire, the lock-protected write, and the demultiplexer's read loop. */
module Mux {
  import opened Bytes
  import opened Values

  const HEADER_LENGTH: nat := 8
  const MAX_PAYLOAD: nat := 65535

  datatype Frame = Frame(timestamp: U32, id: U16, payload: Octets)

  predicate Fits(f: Frame) {
    |f.payload| <= MAX_PAYLOAD
  }

  /** The four writes of send, in order; the length field keeps 16 bits only. */
  function Part(f: Frame, stage: nat): Octets
    requires stage < 4
  {
    if stage == 0 then BigEndian(f.timestamp, 4)
    else if stage == 1 then BigEndian(f.id, 2)
    else if stage == 2 then BigEndian(|f.payload|, 2)
    else f.payload
  }

  function EncodeFrame(f: Frame): Octets {
    Part(f, 0) + Part(f, 1) + Part(f, 2) + Part(f, 3)
  }

  /** What the first writes have put on the wire. */
  function PartsTo(f: Frame, stage: nat): Octets
    requires stage <= 4
  {
    if stage == 0 then []
    else if stage == 1 then Part(f, 0)
    else if stage == 2 then Part(f, 0) + Part(f, 1)
    else if stage == 3 then Part(f, 0) + Part(f, 1) + Part(f, 2)
    else EncodeFrame(f)
  }

  /** What the remaining writes will add. */
  function PartsFrom(f: Frame, stage: nat): Octets
    requires stage <= 4
  {
    if stage == 0 then Part(f, 0) + (Part(f, 1) + (Part(f, 2) + Part(f, 3)))
    else if stage == 1 then Part(f, 1) + (Part(f, 2) + Part(f, 3))
    else if stage == 2 then Part(f, 2) + Part(f, 3)
    else if stage == 3 then Part(f, 3)
    else []
  }

  /** The writes done and the writes to do make the frame at every stage, and each write moves one part. */
  lemma PartsSplit(f: Frame, stage: nat)
    requires stage <= 4
    ensures PartsTo(f, stage) + PartsFrom(f, stage) == EncodeFrame(f)
    ensures stage < 4 ==> PartsTo(f, stage + 1) == PartsTo(f, stage) + Part(f, stage)
    ensures stage < 4 ==> PartsFrom(f, stage) == Part(f, stage) + PartsFrom(f, stage + 1)
  {
  }

  // ---------------------------------------------------------------- the reader

  /** A frame as the reader sees it: the channel it is for, and the octets it took. */
  datatype Arrival = Arrival(channel: U16, payload: Octets)

  datatype Read = Read(arrival: Arrival, used: nat)

  function PayloadLength(s: Octets): nat
    requires |s| >= HEADER_LENGTH
  {
    FromBigEndian(s[6..8])
  }

  /** One round of the read loop, if the octets for it have arrived: the header, then its payload. The
      timestamp is ignored. */
  function ReadFrame(s: Octets): (r: Option<Read>)
    ensures r.Some? ==> HEADER_LENGTH <= r.value.used <= |s|
  {
    if |s| < HEADER_LENGTH then None
    else
      var end := HEADER_LENGTH + PayloadLength(s);
      if |s| < end then None
      else
        Pow256Values();
        Some(Read(Arrival(Flip(FromBigEndian(s[4..6])), s[HEADER_LENGTH..end]), end))
  }

  lemma ReadStable(s: Octets, t: Octets)
    requires ReadFrame(s).Some?
    ensures ReadFrame(s + t) == ReadFrame(s)
  {
    assert (s + t)[4..6] == s[4..6] && (s + t)[6..8] == s[6..8];
    var end := HEADER_LENGTH + PayloadLength(s);
    assert (s + t)[HEADER_LENGTH..end] == s[HEADER_LENGTH..end];
  }

  lemma FourParts(a: Octets, b: Octets, c: Octets, d: Octets, t: Octets)
    requires |a| == 4 && |b| == 2 && |c| == 2
    ensures var s := a + b + c + d + t;
            |a + b + c + d| == 8 + |d| && s[4..6] == b && s[6..8] == c && s[8..8 + |d|] == d
  {
  }

  /** What the reader finds in the header of a frame. */
  lemma HeaderFields(f: Frame, t: Octets)
    ensures var s := EncodeFrame(f) + t;
            && |EncodeFrame(f)| == HEADER_LENGTH + |f.payload|
            && FromBigEndian(s[4..6]) == f.id
            && PayloadLength(s) == |f.payload| % 0x1_0000
            && s[HEADER_LENGTH..HEADER_LENGTH + |f.payload|] == f.payload
  {
    var a, b, c := BigEndian(f.timestamp, 4), BigEndian(f.id, 2), BigEndian(|f.payload|, 2);
    FourParts(a, b, c, f.payload, t);
    assert EncodeFrame(f) == a + b + c + f.payload;
    TwoOctets(f.id);
    TwoOctets(|f.payload|);
  }

  /** A frame comes out as it went in, on the peer's side of the channel, precisely when its payload is short
      enough for the length field. */
  lemma FrameExact(f: Frame, t: Octets)
    ensures ReadFrame(EncodeFrame(f) + t) == Some(Read(Arrival(Flip(f.id), f.payload), |EncodeFrame(f)|)) <==> Fits(f)
  {
    HeaderFields(f, t);
    var s := EncodeFrame(f) + t;
    if !Fits(f) {
      assert PayloadLength(s) < |f.payload|;
    }
  }

  // ---------------------------------------------------------------- routing

  type Queues = map<U16, seq<Octets>>

  /** A payload goes to the queue of its channel; without one it is dropped. */
  function Route(queues: Queues, a: Arrival): Queues {
    if a.channel in queues then queues[a.channel := queues[a.channel] + [a.payload]] else queues
  }

  function RouteAll(queues: Queues, arrivals: seq<Arrival>): Queues
    decreases arrivals
  {
    if arrivals == [] then queues else RouteAll(Route(queues, arrivals[0]), arrivals[1..])
  }

  function PayloadFor(channel: U16, a: Arrival): seq<Octets> {
    if a.channel == channel then [a.payload] else []
  }

  function PayloadsFor(channel: U16, arrivals: seq<Arrival>): seq<Octets> {
    if arrivals == [] then [] else PayloadFor(channel, arrivals[0]) + PayloadsFor(channel, arrivals[1..])
  }

  lemma {:induction false} PayloadsAppend(channel: U16, a: seq<Arrival>, b: seq<Arrival>)
    ensures PayloadsFor(channel, a + b) == PayloadsFor(channel, a) + PayloadsFor(channel, b)
  {
    var c := a + b;
    if a == [] {
      assert c == b;
    } else {
      assert c[0] == a[0] && c[1..] == a[1..] + b;
      PayloadsAppend(channel, a[1..], b);
      Associative(PayloadFor(channel, a[0]), PayloadsFor(channel, a[1..]), PayloadsFor(channel, b));
    }
  }

  /** Every registered channel gets its own payloads, in order and nothing else; no channel appears or
      disappears. */
  lemma {:induction false} RoutingIsFifo(queues: Queues, arrivals: seq<Arrival>)
    ensures RouteAll(queues, arrivals).Keys == queues.Keys
    ensures forall i | i in queues :: RouteAll(queues, arrivals)[i] == queues[i] + PayloadsFor(i, arrivals)
    decreases arrivals
  {
    if arrivals != [] {
      var next := Route(queues, arrivals[0]);
      RoutingIsFifo(next, arrivals[1..]);
    }
  }

  /** The frames at the front of s, in order, and the octets they take. */
  datatype Unpacked = Unpacked(arrivals: seq<Arrival>, used: nat)

  function Unpack(s: Octets): (r: Unpacked)
    ensures r.used <= |s|
    decreases |s|
  {
    match ReadFrame(s)
    case None => Unpacked([], 0)
    case Some(Read(a, n)) =>
      var rest := Unpack(s[n..]);
      Unpacked([a] + rest.arrivals, n + rest.used)
  }

  function Unread(s: Octets): Octets {
    s[Unpack(s).used..]
  }

  function Joined(x: Unpacked, y: Unpacked): Unpacked {
    Unpacked(x.arrivals + y.arrivals, x.used + y.used)
  }

  lemma {:induction false} UnpackStep(s: Octets)
    requires ReadFrame(s).Some?
    ensures var Read(a, n) := ReadFrame(s).value;
            Unpack(s) == Joined(Unpacked([a], n), Unpack(s[n..])) && Unread(s) == Unread(s[n..])
  {
  }

  /** Where the byte stream is cut into chunks makes no difference to the frames read. */
  lemma {:induction false} UnpackAppend(a: Octets, b: Octets)
    ensures Unpack(a + b) == Joined(Unpack(a), Unpack(Unread(a) + b))
    decreases |a|
  {
    match ReadFrame(a)
    case None =>
      assert Unread(a) == a;
      assert [] + Unpack(a + b).arrivals == Unpack(a + b).arrivals;
    case Some(Read(x, n)) =>
      ReadStable(a, b);
      assert (a + b)[n..] == a[n..] + b;
      UnpackStep(a);
      UnpackStep(a + b);
      UnpackAppend(a[n..], b);
      JoinedAssociative(Unpacked([x], n), Unpack(a[n..]), Unpack(Unread(a) + b));
  }

  lemma JoinedAssociative(x: Unpacked, y: Unpacked, z: Unpacked)
    ensures Joined(x, Joined(y, z)) == Joined(Joined(x, y), z)
  {
    assert x.arrivals + (y.arrivals + z.arrivals) == (x.arrivals + y.arrivals) + z.arrivals;
  }

  // ---------------------------------------------------------------- the connection

  /** One end of a connection: the octets it wrote, the octets that arrived and are not yet read, and the
      queue of every registered channel. */
  class Connection {
    var written: Octets
    var incoming: Octets
    var channels: Queues

    constructor ()
      ensures written == [] && incoming == [] && channels == map[]
    {
      written, incoming, channels := [], [], map[];
    }

    /** Holding the lock from the first write to the last, send appends one frame. */
    method Send(timestamp: U32, id: U16, payload: Octets)
      modifies this`written
      ensures written == old(written) + EncodeFrame(Frame(timestamp, id, payload))
    {
      written := written + BigEndian(timestamp, 4);
      written := written + BigEndian(id, 2);
      written := written + BigEndian(|payload|, 2);
      written := written + payload;
    }

    method Register(id: U16)
      modifies this`channels
      ensures channels == old(channels)[id := []]
    {
      channels := channels[id := []];
    }

    method Unregister(id: U16)
      modifies this`channels
      ensures channels == old(channels) - {id}
    {
      channels := channels - {id};
    }

    /** The read loop, up to the point where it waits for more octets. */
    method RunDemux()
      modifies this`incoming, this`channels
      ensures channels == RouteAll(old(channels), Unpack(old(incoming)).arrivals)
      ensures incoming == Unread(old(incoming))
    {
      while true
        invariant RouteAll(old(channels), Unpack(old(incoming)).arrivals) == RouteAll(channels, Unpack(incoming).arrivals)
        invariant Unread(old(incoming)) == Unread(incoming)
        decreases |incoming|
      {
        if |incoming| < HEADER_LENGTH {
          break;
        }
        var header := incoming[..HEADER_LENGTH];
        Pow256Values();
        var id := Flip(FromBigEndian(header[4..6]));
        var length := FromBigEndian(header[6..]);
        assert header[4..6] == incoming[4..6] && header[6..] == incoming[6..8];
        if |incoming| < HEADER_LENGTH + length {
          break;
        }
        var payload := incoming[HEADER_LENGTH..HEADER_LENGTH + length];
        assert Unread(incoming) == Unread(incoming[HEADER_LENGTH + length..]);
        assert Unpack(incoming).arrivals[1..] == Unpack(incoming[HEADER_LENGTH + length..]).arrivals;
        incoming := incoming[HEADER_LENGTH + length..];
        if id in channels {
          channels := channels[id := channels[id] + [payload]];
        }
      }
    }
  }
}

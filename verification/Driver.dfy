/** The driver every mini-protocol shares: cutting the channel's octets into messages, and the loop that
    sends or waits for the peer as long as somebody has the agency. */
module Driver {
  import opened Bytes
  import opened MessageStream

  datatype Agency = Client | Server | Nobody

  /** What a mini-protocol supplies: S is its session, M its messages. None stands for an error or a panic,
      and the driver unwraps both. */
  datatype Protocol<!S, !M> = Protocol(
    role: S -> Agency,
    agency: S -> Agency,
    send: S -> Option<(S, M)>,
    recv: (S, M) -> Option<S>,
    fromValues: Fields -> Option<M>,
    toValues: M -> Option<Fields>)
  {
    predicate MyTurn(s: S) {
      agency(s) != Nobody && agency(s) == role(s)
    }

    predicate PeersTurn(s: S) {
      agency(s) != Nobody && agency(s) != role(s)
    }

    function ToBytes(m: M): Option<Octets> {
      match toValues(m)
      case None => None
      case Some(fields) => if EncodableMessage(fields) then Some(EncodeMessage(fields)) else None
    }
  }

  /** A session never sends twice in a row: what makes the driver loop terminate. */
  ghost predicate Alternates<S(!new), M(!new)>(p: Protocol<S, M>) {
    forall s: S | p.MyTurn(s) && p.send(s).Some? :: !p.MyTurn(p.send(s).value.0)
  }

  /** A log line of the driver: a message sent or received. */
  datatype Event<M> = Tx(message: M) | Rx(message: M)

  function Received<M>(ms: seq<M>): seq<Event<M>> {
    if ms == [] then [] else [Rx(ms[0])] + Received(ms[1..])
  }

  /** A session with its channel: octets kept from earlier frames, frames queued by the demultiplexer,
      payloads handed to the connection, and the driver's log. */
  datatype Endpoint<S, M> = Endpoint(
    session: S,
    bytes: Octets,
    inbox: seq<Octets>,
    outbox: seq<Octets>,
    log: seq<Event<M>>)
  {
    /** Every octet that has arrived and is not yet part of a message. */
    function Pending(): Octets {
      bytes + Concat(inbox)
    }

    function Arrive(frames: seq<Octets>): Endpoint<S, M> {
      this.(inbox := inbox + frames)
    }
  }

  // ---------------------------------------------------------------- one frame

  datatype Delivered<S, M> = Delivered(session: S, received: seq<M>)

  function Deliver<S, M>(p: Protocol<S, M>, s: S, messages: seq<Fields>): Option<Delivered<S, M>> {
    if messages == [] then Some(Delivered(s, []))
    else
      match p.fromValues(messages[0])
      case None => None
      case Some(m) =>
        match p.recv(s, m)
        case None => None
        case Some(s') =>
          match Deliver(p, s', messages[1..])
          case None => None
          case Some(d) => Some(Delivered(d.session, [m] + d.received))
  }

  datatype Fed<S, M> = Fed(session: S, received: seq<M>, leftover: Octets)

  /** The result of a feed that had already delivered some messages. */
  function Continued<S, M>(received: seq<M>, rest: Option<Fed<S, M>>): Option<Fed<S, M>> {
    match rest
    case None => None
    case Some(f) => Some(f.(received := received + f.received))
  }

  /** Everything one call of receive_bytes does with its data, message after message; None is a panic. */
  function Feed<S, M>(p: Protocol<S, M>, s: S, data: Octets): Option<Fed<S, M>>
    decreases |data|
  {
    if data == [] then Some(Fed(s, [], []))
    else
      match DecodeMessage(data)
      case Incomplete => Some(Fed(s, [], data))
      case Malformed => None
      case Done(fields, used) =>
        match p.fromValues(fields)
        case None => None
        case Some(m) =>
          match p.recv(s, m)
          case None => None
          case Some(s') => Continued([m], Feed(p, s', data[used..]))
  }

  /** The same in two phases: first cut all the data into messages, then deliver them. */
  function ScanAndDeliver<S, M>(p: Protocol<S, M>, s: S, data: Octets): Option<Fed<S, M>> {
    match Deliver(p, s, ScanMessages(data).messages)
    case None => None
    case Some(d) =>
      if ScanMessages(data).sound then Some(Fed(d.session, d.received, Leftover(data))) else None
  }

  lemma {:induction false} FeedInTwoPhases<S, M>(p: Protocol<S, M>, s: S, data: Octets)
    ensures Feed(p, s, data) == ScanAndDeliver(p, s, data)
    decreases |data|
  {
    if Settled(data) {
      SettledScan(data);
    } else if DecodeMessage(data).Done? {
      var Done(fields, used) := DecodeMessage(data);
      ScanStep(data);
      assert ScanMessages(data).messages[1..] == ScanMessages(data[used..]).messages;
      match p.fromValues(fields)
      case None =>
      case Some(m) =>
        match p.recv(s, m)
        case None =>
        case Some(s') => FeedInTwoPhases(p, s', data[used..]);
    }
  }

  /** The next frame after a previous feed. */
  function FeedMore<S, M>(p: Protocol<S, M>, before: Option<Fed<S, M>>, frame: Octets): Option<Fed<S, M>> {
    match before
    case None => None
    case Some(f) => Continued(f.received, Feed(p, f.session, f.leftover + frame))
  }

  /** Reassembly does not depend on framing: for all octets, feeding a and then b delivers the same messages,
      keeps the same leftover, or panics, exactly as feeding a + b at once. */
  lemma {:induction false} FeedAppend<S, M>(p: Protocol<S, M>, s: S, a: Octets, b: Octets)
    ensures Feed(p, s, a + b) == FeedMore(p, Feed(p, s, a), b)
    decreases |a|
  {
    if Settled(a) {
      assert a == [] ==> a + b == b && [] + b == b;
      ContinuedFromNothing(Feed(p, s, a + b));
    } else {
      MessageStable(a, b);
      if DecodeMessage(a).Done? {
        var Done(fields, used) := DecodeMessage(a);
        assert (a + b)[used..] == a[used..] + b;
        match p.fromValues(fields)
        case None =>
        case Some(m) =>
          match p.recv(s, m)
          case None =>
          case Some(s') =>
            FeedAppend(p, s', a[used..], b);
            match Feed(p, s', a[used..])
            case None =>
            case Some(f) => ContinuedTwice([m], f.received, Feed(p, f.session, f.leftover + b));
      }
    }
  }

  /** Frame after frame, each with what the previous ones left. */
  function FeedFrames<S, M>(p: Protocol<S, M>, before: Option<Fed<S, M>>, frames: seq<Octets>): Option<Fed<S, M>>
    decreases |frames|
  {
    if frames == [] then before else FeedFrames(p, FeedMore(p, before, frames[0]), frames[1..])
  }

  /** So every cut of the octets into frames, empty ones included, agrees with feeding them at once. */
  lemma {:induction false} EveryCutAgrees<S, M>(p: Protocol<S, M>, s: S, data: Octets, frames: seq<Octets>)
    ensures FeedFrames(p, Feed(p, s, data), frames) == Feed(p, s, data + Concat(frames))
    decreases |frames|
  {
    if frames == [] {
      assert data + [] == data;
    } else {
      FeedAppend(p, s, data, frames[0]);
      EveryCutAgrees(p, s, data + frames[0], frames[1..]);
      Associative(data, frames[0], Concat(frames[1..]));
    }
  }

  lemma ContinuedFromNothing<S, M>(rest: Option<Fed<S, M>>)
    ensures Continued([], rest) == rest
  {
    if rest.Some? {
      assert [] + rest.value.received == rest.value.received;
    }
  }

  lemma {:induction false} FeedSettles<S, M>(p: Protocol<S, M>, s: S, data: Octets)
    requires Feed(p, s, data).Some?
    ensures Settled(Feed(p, s, data).value.leftover)
    decreases |data|
  {
    if data != [] && DecodeMessage(data).Done? {
      var Done(fields, used) := DecodeMessage(data);
      FeedSettles(p, p.recv(s, p.fromValues(fields).value).value, data[used..]);
    }
  }

  lemma {:induction false} FeedStart<S, M>(p: Protocol<S, M>, s: S, data: Octets)
    ensures Continued([], Feed(p, s, data[0..])) == Feed(p, s, data)
  {
    assert data[0..] == data;
    ContinuedFromNothing(Feed(p, s, data));
  }

  lemma {:induction false} FeedEnd<S, M>(p: Protocol<S, M>, received: seq<M>, s: S, data: Octets)
    ensures Continued(received, Feed(p, s, data[|data|..])) == Some(Fed(s, received, []))
  {
    assert data[|data|..] == [];
    FeedSettled(p, received, s, []);
  }

  lemma {:induction false} LogMore<M>(log: seq<Event<M>>, received: seq<M>, m: M)
    ensures (log + Received(received)) + [Rx(m)] == log + Received(received + [m])
  {
    ReceivedAppend(received, [m]);
    ReceivedOne(m);
  }

  /** A feed that goes on at an offset, after some messages: what one round of the loop does. */
  lemma {:induction false} FeedRound<S, M>(
    p: Protocol<S, M>, received: seq<M>, s: S, data: Octets, offset: nat, m: M, s': S)
    requires offset < |data| && DecodeMessage(data[offset..]).Done?
    requires p.fromValues(DecodeMessage(data[offset..]).value) == Some(m) && p.recv(s, m) == Some(s')
    ensures offset + DecodeMessage(data[offset..]).used <= |data|
    ensures Continued(received, Feed(p, s, data[offset..]))
         == Continued(received + [m], Feed(p, s', data[offset + DecodeMessage(data[offset..]).used..]))
  {
    var used := DecodeMessage(data[offset..]).used;
    assert data[offset..][used..] == data[offset + used..];
    ContinuedTwice(received, [m], Feed(p, s', data[offset + used..]));
  }

  /** A feed that cannot go on at an offset: the panics of the loop. */
  lemma {:induction false} FeedFails<S, M>(p: Protocol<S, M>, received: seq<M>, s: S, data: Octets, offset: nat)
    requires offset < |data|
    requires match DecodeMessage(data[offset..])
             case Done(fields, _) => p.fromValues(fields).None? || p.recv(s, p.fromValues(fields).value).None?
             case Incomplete => false
             case Malformed => true
    ensures Continued(received, Feed(p, s, data[offset..])) == None
  {
  }

  lemma ContinuedTwice<S, M>(a: seq<M>, b: seq<M>, rest: Option<Fed<S, M>>)
    ensures Continued(a, Continued(b, rest)) == Continued(a + b, rest)
  {
    if rest.Some? {
      assert a + (b + rest.value.received) == (a + b) + rest.value.received;
    }
  }

  lemma {:induction false} FeedSettled<S, M>(p: Protocol<S, M>, received: seq<M>, s: S, data: Octets)
    requires Settled(data)
    ensures Continued(received, Feed(p, s, data)) == Some(Fed(s, received, data))
  {
    assert received + [] == received;
  }

  // ---------------------------------------------------------------- the loop

  datatype Iteration<S, M> = Ended | Waiting | Panicked | Stepped(next: Endpoint<S, M>)

  /** One round of the driver loop. Waiting is the await on an empty queue. */
  function Iterate<S, M>(p: Protocol<S, M>, e: Endpoint<S, M>): Iteration<S, M> {
    if p.agency(e.session) == Nobody then Ended
    else if p.MyTurn(e.session) then
      match p.send(e.session)
      case None => Panicked
      case Some((s, m)) =>
        match p.ToBytes(m)
        case None => Panicked
        case Some(payload) => Stepped(e.(session := s, outbox := e.outbox + [payload], log := e.log + [Tx(m)]))
    else if e.inbox == [] then Waiting
    else
      match Feed(p, e.session, e.bytes + e.inbox[0])
      case None => Panicked
      case Some(f) =>
        Stepped(e.(session := f.session, bytes := f.leftover, inbox := e.inbox[1..], log := e.log + Received(f.received)))
  }

  datatype Poll = Completed | Suspended | Crashed

  /** The driver loop up to its end, its first await on an empty queue, or a panic. A suspended loop goes on
      from the endpoint it returns. */
  function Drive<S(!new), M(!new)>(p: Protocol<S, M>, e: Endpoint<S, M>): (r: (Poll, Endpoint<S, M>))
    requires Alternates(p)
    decreases |e.inbox|, if p.MyTurn(e.session) then 1 else 0
  {
    match Iterate(p, e)
    case Ended => (Completed, e)
    case Waiting => (Suspended, e)
    case Panicked => (Crashed, e)
    case Stepped(next) => Drive(p, next)
  }

  /** Induction over the rounds of the loop: what every round keeps without panicking holds at the end. */
  lemma {:induction false} DriveInvariant<S(!new), M(!new)>(
    p: Protocol<S, M>, e: Endpoint<S, M>, inv: Endpoint<S, M> -> bool)
    requires Alternates(p) && inv(e)
    requires forall x | inv(x) :: !Iterate(p, x).Panicked? && (Iterate(p, x).Stepped? ==> inv(Iterate(p, x).next))
    ensures var (poll, e') := Drive(p, e);
            && inv(e') && poll != Crashed
            && (poll == Completed ==> p.agency(e'.session) == Nobody)
            && (poll == Suspended ==> p.PeersTurn(e'.session) && e'.inbox == [])
    decreases |e.inbox|, if p.MyTurn(e.session) then 1 else 0
  {
    if Iterate(p, e).Stepped? {
      DriveInvariant(p, Iterate(p, e).next, inv);
    }
  }

  /** The payloads of the messages a log says were sent. */
  function Payloads<S, M>(p: Protocol<S, M>, log: seq<Event<M>>): seq<Octets> {
    if log == [] then []
    else (if log[0].Tx? then [p.ToBytes(log[0].message).GetOr([])] else []) + Payloads(p, log[1..])
  }

  lemma {:induction false} PayloadsAppend<S, M>(p: Protocol<S, M>, a: seq<Event<M>>, b: seq<Event<M>>)
    ensures Payloads(p, a + b) == Payloads(p, a) + Payloads(p, b)
  {
    var c := a + b;
    if a == [] {
      assert c == b;
    } else {
      assert c[0] == a[0] && c[1..] == a[1..] + b;
      PayloadsAppend(p, a[1..], b);
    }
  }

  lemma {:induction false} NothingSent<S, M>(p: Protocol<S, M>, received: seq<M>)
    ensures Payloads(p, Received(received)) == []
  {
    if received != [] {
      NothingSent(p, received[1..]);
    }
  }

  /** What the loop hands to the connection is, payload for payload, what its log says it sent. */
  lemma {:induction false} OutboxFollowsLog<S(!new), M(!new)>(p: Protocol<S, M>, e: Endpoint<S, M>)
    requires Alternates(p) && e.outbox == Payloads(p, e.log)
    ensures Drive(p, e).1.outbox == Payloads(p, Drive(p, e).1.log)
    decreases |e.inbox|, if p.MyTurn(e.session) then 1 else 0
  {
    if Iterate(p, e).Stepped? {
      RoundFollowsLog(p, e);
      OutboxFollowsLog(p, Iterate(p, e).next);
    }
  }

  lemma {:induction false} RoundFollowsLog<S, M>(p: Protocol<S, M>, e: Endpoint<S, M>)
    requires Iterate(p, e).Stepped? && e.outbox == Payloads(p, e.log)
    ensures Iterate(p, e).next.outbox == Payloads(p, Iterate(p, e).next.log)
  {
    if p.MyTurn(e.session) {
      var m := p.send(e.session).value.1;
      PayloadsAppend(p, e.log, [Tx(m)]);
      assert Payloads(p, [Tx(m)][1..]) == [];
    } else {
      var received := Feed(p, e.session, e.bytes + e.inbox[0]).value.received;
      PayloadsAppend(p, e.log, Received(received));
      NothingSent(p, received);
    }
  }

  /** The endpoint once its first k frames have been fed. */
  function Advance<S, M>(e: Endpoint<S, M>, k: nat, fed: Option<Fed<S, M>>): Option<Endpoint<S, M>>
    requires k <= |e.inbox|
  {
    match fed
    case None => None
    case Some(f) =>
      Some(e.(session := f.session, bytes := f.leftover, inbox := e.inbox[k..], log := e.log + Received(f.received)))
  }

  /** The endpoint after feeding its first k frames in one go. */
  function AfterFrames<S, M>(p: Protocol<S, M>, e: Endpoint<S, M>, k: nat): Option<Endpoint<S, M>>
    requires k <= |e.inbox|
  {
    Advance(e, k, Feed(p, e.session, e.bytes + Concat(e.inbox[..k])))
  }

  predicate StillPeersTurn<S, M>(p: Protocol<S, M>, e: Endpoint<S, M>, k: nat)
    requires k <= |e.inbox|
  {
    AfterFrames(p, e, k).Some? && p.PeersTurn(AfterFrames(p, e, k).value.session)
  }

  lemma {:induction false} ReceivedAppend<M>(a: seq<M>, b: seq<M>)
    ensures Received(a + b) == Received(a) + Received(b)
  {
    var c := a + b;
    if a == [] {
      assert c == b;
    } else {
      assert c[0] == a[0] && c[1..] == a[1..] + b;
      ReceivedAppend(a[1..], b);
    }
  }

  lemma ReceivedOne<M>(m: M)
    ensures Received([m]) == [Rx(m)]
  {
    assert [m][1..] == [];
  }

  lemma {:induction false} AdvanceTwice<S, M>(p: Protocol<S, M>, e: Endpoint<S, M>, k: nat, f: Fed<S, M>, data: Octets)
    requires k < |e.inbox|
    ensures Advance(e, k + 1, FeedMore(p, Some(f), data))
         == Advance(Advance(e, 1, Some(f)).value, k, Feed(p, f.session, f.leftover + data))
  {
    match Feed(p, f.session, f.leftover + data)
    case None =>
    case Some(g) =>
      ReceivedAppend(f.received, g.received);
      assert e.log + Received(f.received + g.received) == (e.log + Received(f.received)) + Received(g.received);
      assert e.inbox[1..][k..] == e.inbox[k + 1..];
  }

  /** Feeding the first frame and then k more is feeding the first k + 1. */
  lemma AfterFramesStep<S, M>(p: Protocol<S, M>, e: Endpoint<S, M>, k: nat)
    requires k < |e.inbox|
    ensures AfterFrames(p, e, k + 1) ==
            match AfterFrames(p, e, 1)
            case None => None
            case Some(first) => AfterFrames(p, first, k)
  {
    var data, rest := e.bytes + e.inbox[0], Concat(e.inbox[1..][..k]);
    var fed := Feed(p, e.session, data);
    assert AfterFrames(p, e, 1) == Advance(e, 1, fed) by {
      FirstFrame(e, 0);
      assert data + [] == data;
    }
    assert AfterFrames(p, e, k + 1) == Advance(e, k + 1, FeedMore(p, fed, rest)) by {
      FirstFrame(e, k);
      FeedAppend(p, e.session, data, rest);
    }
    if fed.Some? {
      AdvanceTwice(p, e, k, fed.value, rest);
    }
  }

  lemma FirstFrame<S, M>(e: Endpoint<S, M>, k: nat)
    requires k < |e.inbox|
    ensures e.bytes + Concat(e.inbox[..k + 1]) == (e.bytes + e.inbox[0]) + Concat(e.inbox[1..][..k])
  {
    var taken := e.inbox[..k + 1];
    assert taken[0] == e.inbox[0] && taken[1..] == e.inbox[1..][..k];
  }

  lemma OneFrame<S, M>(p: Protocol<S, M>, e: Endpoint<S, M>)
    requires p.PeersTurn(e.session) && e.inbox != []
    ensures Iterate(p, e) == match AfterFrames(p, e, 1) case None => Panicked case Some(next) => Stepped(next)
  {
    FirstFrame(e, 0);
    assert (e.bytes + e.inbox[0]) + [] == e.bytes + e.inbox[0];
  }

  lemma NoFrame<S, M>(p: Protocol<S, M>, e: Endpoint<S, M>)
    requires Settled(e.bytes)
    ensures AfterFrames(p, e, 0) == Some(e)
  {
    assert e.bytes + Concat(e.inbox[..0]) == e.bytes;
    SettledScan(e.bytes);
    assert e.log + Received<M>([]) == e.log;
  }

  lemma StaysSettled<S, M>(p: Protocol<S, M>, e: Endpoint<S, M>, k: nat)
    requires k <= |e.inbox| && AfterFrames(p, e, k).Some?
    ensures Settled(AfterFrames(p, e, k).value.bytes)
  {
    FeedSettles(p, e.session, e.bytes + Concat(e.inbox[..k]));
  }

  lemma TurnAfterFirst<S, M>(p: Protocol<S, M>, e: Endpoint<S, M>, first: Endpoint<S, M>, k: nat)
    requires 0 < k <= |e.inbox| && AfterFrames(p, e, 1) == Some(first)
    requires forall j | 0 <= j < k :: StillPeersTurn(p, e, j)
    ensures forall j | 0 <= j < k - 1 :: StillPeersTurn(p, first, j)
  {
    forall j | 0 <= j < k - 1 ensures StillPeersTurn(p, first, j) {
      AfterFramesStep(p, e, j);
      assert StillPeersTurn(p, e, j + 1);
    }
  }

  /** While it is the peer's turn the loop takes one frame after another, whatever their lengths, and its
      state is that of feeding them all at once. So it stops receiving after exactly the shortest prefix of
      frames that ends the turn, waits only when no prefix of the queue does, and panics on the first that
      cannot be digested. */
  lemma {:induction false} TurnTakesShortestPrefix<S(!new), M(!new)>(p: Protocol<S, M>, e: Endpoint<S, M>, k: nat)
    requires Alternates(p) && Settled(e.bytes) && k <= |e.inbox|
    requires forall j | 0 <= j < k :: StillPeersTurn(p, e, j)
    ensures match AfterFrames(p, e, k)
            case None => Drive(p, e).0 == Crashed
            case Some(next) => Drive(p, e) == Drive(p, next)
    decreases k
  {
    NoFrame(p, e);
    if k > 0 {
      assert StillPeersTurn(p, e, 0);
      OneFrame(p, e);
      AfterFramesStep(p, e, k - 1);
      if k > 1 {
        assert StillPeersTurn(p, e, 1);
      }
      if AfterFrames(p, e, 1).Some? {
        var first := AfterFrames(p, e, 1).value;
        StaysSettled(p, e, 1);
        TurnAfterFirst(p, e, first, k);
        TurnTakesShortestPrefix(p, first, k - 1);
      }
    }
  }

  /** The loop waits on an empty queue precisely when the frames that arrived leave the turn with the peer. */
  lemma {:induction false} WaitsOnlyForThePeer<S(!new), M(!new)>(p: Protocol<S, M>, e: Endpoint<S, M>)
    requires Alternates(p) && Settled(e.bytes)
    requires forall j | 0 <= j <= |e.inbox| :: StillPeersTurn(p, e, j)
    ensures AfterFrames(p, e, |e.inbox|) == Some(Drive(p, e).1)
    ensures Drive(p, e).0 == Suspended && Drive(p, e).1.inbox == []
  {
    TurnTakesShortestPrefix(p, e, |e.inbox|);
    assert StillPeersTurn(p, e, |e.inbox|);
  }

  /** A cut that spoils a prefix of the frames spoils all longer ones. */
  lemma PanicStays<S, M>(p: Protocol<S, M>, e: Endpoint<S, M>, j: nat, n: nat)
    requires j <= n <= |e.inbox| && AfterFrames(p, e, n).Some?
    ensures AfterFrames(p, e, j).Some?
  {
    assert e.inbox[..n] == e.inbox[..j] + e.inbox[j..n];
    ConcatAppend(e.inbox[..j], e.inbox[j..n]);
    assert e.bytes + (Concat(e.inbox[..j]) + Concat(e.inbox[j..n]))
        == (e.bytes + Concat(e.inbox[..j])) + Concat(e.inbox[j..n]);
    FeedAppend(p, e.session, e.bytes + Concat(e.inbox[..j]), Concat(e.inbox[j..n]));
  }

  /** If some prefix of the queue ends the peer's turn, the loop gets past the turn without waiting, and k,
      the number of frames it takes, is the least that does. */
  lemma TurnEnds<S(!new), M(!new)>(p: Protocol<S, M>, e: Endpoint<S, M>, n: nat) returns (k: nat)
    requires Alternates(p) && Settled(e.bytes) && n <= |e.inbox|
    requires AfterFrames(p, e, n).Some? && !StillPeersTurn(p, e, n)
    ensures k <= n && AfterFrames(p, e, k).Some? && !StillPeersTurn(p, e, k)
    ensures forall j | 0 <= j < k :: StillPeersTurn(p, e, j)
    ensures Drive(p, e) == Drive(p, AfterFrames(p, e, k).value)
  {
    k := 0;
    while StillPeersTurn(p, e, k)
      invariant k <= n
      invariant forall j | 0 <= j < k :: StillPeersTurn(p, e, j)
      decreases n - k
    {
      k := k + 1;
    }
    PanicStays(p, e, k, n);
    TurnTakesShortestPrefix(p, e, k);
  }

  /** Frames that arrive during a call or before it make no difference: a suspended loop resumed on the later
      frames ends where a loop given all frames at once does; and a loop that ended leaves later frames alone. */
  lemma {:induction false} ArrivalsCommute<S(!new), M(!new)>(p: Protocol<S, M>, e: Endpoint<S, M>, later: seq<Octets>)
    requires Alternates(p)
    ensures var (poll, e') := Drive(p, e);
            Drive(p, e.Arrive(later)) ==
            if poll == Suspended then Drive(p, e'.Arrive(later)) else (poll, e'.Arrive(later))
    decreases |e.inbox|, if p.MyTurn(e.session) then 1 else 0
  {
    if e.inbox != [] {
      assert (e.inbox + later)[0] == e.inbox[0] && (e.inbox + later)[1..] == e.inbox[1..] + later;
    }
    if Iterate(p, e).Stepped? {
      var next := Iterate(p, e).next;
      assert Iterate(p, e.Arrive(later)) == Stepped(next.Arrive(later));
      ArrivalsCommute(p, next, later);
    }
  }

  /** Letting a loop that stopped go on without news changes nothing. */
  lemma {:induction false} DriveTwice<S(!new), M(!new)>(p: Protocol<S, M>, e: Endpoint<S, M>)
    requires Alternates(p)
    ensures Drive(p, Drive(p, e).1) == Drive(p, e)
    decreases |e.inbox|, if p.MyTurn(e.session) then 1 else 0
  {
    if Iterate(p, e).Stepped? {
      DriveTwice(p, Iterate(p, e).next);
    }
  }

  // ---------------------------------------------------------------- a side that waits for one message

  /** Frames without octets, which are legal, keep a waiting side waiting. */
  lemma {:induction false} EmptyFramesOnly<S(!new), M(!new)>(p: Protocol<S, M>, e: Endpoint<S, M>)
    requires Alternates(p) && p.PeersTurn(e.session) && e.bytes == [] && Concat(e.inbox) == []
    ensures Drive(p, e) == (Suspended, e.(inbox := []))
    decreases |e.inbox|
  {
    if e.inbox != [] {
      assert e.inbox[0] == [] && Concat(e.inbox[1..]) == [];
      assert e.bytes + e.inbox[0] == [];
      var next := Iterate(p, e).next;
      assert e.log + Received<M>([]) == e.log;
      assert next == e.(inbox := e.inbox[1..]);
      EmptyFramesOnly(p, next);
    }
  }

  lemma {:induction false} DeliverOne<S, M>(p: Protocol<S, M>, s: S, fields: Fields)
    ensures Deliver(p, s, [fields]) ==
            match p.fromValues(fields)
            case None => None
            case Some(m) => match p.recv(s, m) case None => None case Some(s') => Some(Delivered(s', [m]))
  {
    assert [fields][1..] == [];
    match p.fromValues(fields)
    case None =>
    case Some(m) =>
      match p.recv(s, m)
      case None =>
      case Some(s') =>
        assert Deliver(p, s', []) == Some(Delivered(s', []));
        assert [m] + [] == [m];
  }

  /** A feed of the front of a message, or of all of it. */
  lemma {:induction false} FeedOneMessage<S, M>(p: Protocol<S, M>, s: S, a: Octets, b: Octets, fields: Fields)
    requires OneMessage(a + b, fields)
    ensures if OneMessage(a, fields) then
              && b == []
              && Feed(p, s, a) ==
                 match p.fromValues(fields)
                 case None => None
                 case Some(m) => match p.recv(s, m) case None => None case Some(s') => Some(Fed(s', [m], []))
            else Feed(p, s, a) == Some(Fed(s, [], a))
  {
    hide ScanMessages, Deliver, Feed;
    CutMessage(a, b, fields);
    FeedInTwoPhases(p, s, a);
    DeliverOne(p, s, fields);
    assert Deliver(p, s, []) == Some(Delivered(s, [])) by {
      DeliverNone(p, s);
    }
  }

  lemma {:induction false} DeliverNone<S, M>(p: Protocol<S, M>, s: S)
    ensures Deliver(p, s, []) == Some(Delivered(s, []))
  {
  }

  /** How a waiting side has settled one message. */
  ghost predicate Decided<S, M>(p: Protocol<S, M>, e: Endpoint<S, M>, fields: Fields, poll: Poll, end: Endpoint<S, M>) {
    match p.fromValues(fields)
    case None => poll == Crashed
    case Some(m) =>
      match p.recv(e.session, m)
      case None => poll == Crashed
      case Some(s) =>
        !p.MyTurn(s) ==>
          && poll == (if p.agency(s) == Nobody then Completed else Suspended)
          && end == Endpoint(s, [], end.inbox, e.outbox, e.log + [Rx(m)]) && Concat(end.inbox) == []
  }

  /** A frame that does not complete the message. */
  lemma KeepsFrame<S, M>(p: Protocol<S, M>, e: Endpoint<S, M>, fields: Fields)
    requires p.PeersTurn(e.session) && e.inbox != [] && OneMessage(e.Pending(), fields)
    requires !OneMessage(e.bytes + e.inbox[0], fields)
    ensures Iterate(p, e) == Stepped(e.(bytes := e.bytes + e.inbox[0], inbox := e.inbox[1..]))
    ensures Settled(e.bytes + e.inbox[0]) && (e.bytes + e.inbox[0]) + Concat(e.inbox[1..]) == e.Pending()
  {
    hide Feed, OneMessage, Settled, ScanMessages, Leftover;
    var a, b := e.bytes + e.inbox[0], Concat(e.inbox[1..]);
    Associative(e.bytes, e.inbox[0], b);
    FeedOneMessage(p, e.session, a, b, fields);
    CutMessage(a, b, fields);
    assert e.log + Received<M>([]) == e.log;
  }

  /** The frame that does. */
  lemma {:induction false} TakesMessage<S(!new), M(!new)>(p: Protocol<S, M>, e: Endpoint<S, M>, fields: Fields)
    requires Alternates(p) && p.PeersTurn(e.session) && e.inbox != [] && OneMessage(e.Pending(), fields)
    requires OneMessage(e.bytes + e.inbox[0], fields)
    ensures Decided(p, e, fields, Drive(p, e).0, Drive(p, e).1)
  {
    hide Feed, OneMessage;
    var a, b := e.bytes + e.inbox[0], Concat(e.inbox[1..]);
    Associative(e.bytes, e.inbox[0], b);
    FeedOneMessage(p, e.session, a, b, fields);
    if Feed(p, e.session, a).Some? {
      var next := Iterate(p, e).next;
      ReceivedOne(p.fromValues(fields).value);
      if p.PeersTurn(next.session) {
        EmptyFramesOnly(p, next);
      }
    }
  }

  /** A waiting side all of whose octets are one message, in any encoding and any cut, settles it by its recv: it
      panics if the message means nothing or recv refuses it, and otherwise has received exactly that message
      and ends or waits again as its new session says. */
  lemma {:induction false} OneMessageDecides<S(!new), M(!new)>(p: Protocol<S, M>, e: Endpoint<S, M>, fields: Fields)
    requires Alternates(p) && p.PeersTurn(e.session) && Settled(e.bytes) && OneMessage(e.Pending(), fields)
    ensures Decided(p, e, fields, Drive(p, e).0, Drive(p, e).1)
    decreases |e.inbox|
  {
    hide Feed, DecodeMessage;
    if e.inbox == [] {
      assert e.Pending() == e.bytes;
      SettledScan(e.bytes);
    } else if OneMessage(e.bytes + e.inbox[0], fields) {
      TakesMessage(p, e, fields);
    } else {
      KeepsFrame(p, e, fields);
      OneMessageDecides(p, Iterate(p, e).next, fields);
    }
  }

  // ---------------------------------------------------------------- the loops themselves

  /** A running mini-protocol. Its send and recv are the functions of the protocol record; the two loops
      that all protocols inherit are methods here. */
  class MiniProtocol<S(!new), M(!new)> {
    const protocol: Protocol<S, M>
    var session: S
    var bytes: Octets
    var inbox: seq<Octets>
    var outbox: seq<Octets>
    var log: seq<Event<M>>

    constructor (protocol: Protocol<S, M>, session: S)
      ensures this.protocol == protocol && View() == Endpoint(session, [], [], [], [])
    {
      this.protocol := protocol;
      this.session := session;
      bytes, inbox, outbox, log := [], [], [], [];
    }

    function View(): Endpoint<S, M>
      reads this
    {
      Endpoint(session, bytes, inbox, outbox, log)
    }

    /** Delivers every complete message of data and returns what is left, nothing being the same as an empty
        rest. Any error on the way is a panic. */
    method ReceiveBytes(data: Octets) returns (panicked: bool, rest: Option<Octets>, ghost received: seq<M>)
      modifies this`session, this`log
      ensures Feed(protocol, old(session), data)
           == if panicked then None else Some(Fed(session, received, rest.GetOr([])))
      ensures !panicked ==> log == old(log) + Received(received)
    {
      hide Feed, DecodeMessage;
      var lastOffset := 0;
      received := [];
      ghost var goal := Feed(protocol, session, data);
      FeedStart(protocol, session, data);
      while lastOffset < |data|
        invariant lastOffset <= |data|
        invariant goal == Continued(received, Feed(protocol, session, data[lastOffset..]))
        invariant log == old(log) + Received(received)
      {
        match DecodeMessage(data[lastOffset..]) {
          case Done(fields, used) =>
            var m := protocol.fromValues(fields);
            if m.None? {
              FeedFails(protocol, received, session, data, lastOffset);
              return true, None, received;
            }
            var s := protocol.recv(session, m.value);
            if s.None? {
              FeedFails(protocol, received, session, data, lastOffset);
              return true, None, received;
            }
            FeedRound(protocol, received, session, data, lastOffset, m.value, s.value);
            LogMore(old(log), received, m.value);
            session, log := s.value, log + [Rx(m.value)];
            received := received + [m.value];
            lastOffset := lastOffset + used;
          case Incomplete =>
            FeedSettled(protocol, received, session, data[lastOffset..]);
            return false, Some(data[lastOffset..]), received;
          case Malformed =>
            FeedFails(protocol, received, session, data, lastOffset);
            return true, None, received;
        }
      }
      FeedEnd(protocol, received, session, data);
      return false, None, received;
    }

    /** The driver loop: sends while this side has the agency, otherwise takes the next frame. */
    method Execute() returns (poll: Poll)
      requires Alternates(protocol)
      modifies this
      ensures poll == Drive(protocol, old(View())).0
      ensures poll != Crashed ==> View() == Drive(protocol, old(View())).1
    {
      while protocol.agency(session) != Nobody
        invariant Drive(protocol, View()) == Drive(protocol, old(View()))
        decreases |inbox|, if protocol.MyTurn(session) then 1 else 0
      {
        if protocol.agency(session) == protocol.role(session) {
          var sent := protocol.send(session);
          if sent.None? {
            return Crashed;
          }
          var (s, m) := sent.value;
          var payload := protocol.ToBytes(m);
          if payload.None? {
            return Crashed;
          }
          session, outbox, log := s, outbox + [payload.value], log + [Tx(m)];
        } else {
          if inbox == [] {
            return Suspended;
          }
          var data := bytes + inbox[0];
          bytes, inbox := [], inbox[1..];
          var panicked, rest, received := ReceiveBytes(data);
          if panicked {
            return Crashed;
          }
          bytes := rest.GetOr([]);
        }
      }
      return Completed;
    }
  }
}

/** Block-Fetch against a conforming server: what holds over every sequence of calls, polls and arrivals. */
module BlockFetchRuns {
  import opened Bytes
  import opened MessageStream
  import opened Driver
  import opened BlockFetch

  // ---------------------------------------------------------------- the specification machine

  /** The Block-Fetch state machine of "The Shelley Networking Protocol", as the client sees it: the client
      may send in Idle only, the server in Busy and Streaming only. */
  function SpecStep(q: State, event: Event<Message>): Option<State> {
    match (q, event)
    case (Idle, Tx(RequestRange(_, _))) => Some(Busy)
    case (Idle, Tx(ClientDone)) => Some(State.Done)
    case (Busy, Rx(NoBlocks)) => Some(Idle)
    case (Busy, Rx(StartBatch)) => Some(Streaming)
    case (Streaming, Rx(Block(_))) => Some(Streaming)
    case (Streaming, Rx(BatchDone)) => Some(Idle)
    case _ => None
  }

  /** The state after a trace, or None if the specification rejects it. */
  function Accept(q: State, trace: seq<Event<Message>>): Option<State>
    decreases trace
  {
    if trace == [] then Some(q)
    else
      match SpecStep(q, trace[0])
      case None => None
      case Some(q') => Accept(q', trace[1..])
  }

  function BlockOf(m: Message): seq<Octets> {
    if m.Block? then [m.body] else []
  }

  /** The blocks a trace has brought. */
  function Blocks(trace: seq<Event<Message>>): seq<Octets> {
    if trace == [] then []
    else (if trace[0].Rx? then BlockOf(trace[0].message) else []) + Blocks(trace[1..])
  }

  lemma {:induction false} AcceptAppend(q: State, a: seq<Event<Message>>, b: seq<Event<Message>>)
    ensures Accept(q, a + b) == match Accept(q, a) case None => None case Some(q') => Accept(q', b)
    decreases a
  {
    var c := a + b;
    if a == [] {
      assert c == b;
    } else {
      assert c[0] == a[0] && c[1..] == a[1..] + b;
      match SpecStep(q, a[0])
      case None =>
      case Some(q') => AcceptAppend(q', a[1..], b);
    }
  }

  lemma {:induction false} BlocksAppend(a: seq<Event<Message>>, b: seq<Event<Message>>)
    ensures Blocks(a + b) == Blocks(a) + Blocks(b)
  {
    var c := a + b;
    if a == [] {
      assert c == b;
    } else {
      assert c[0] == a[0] && c[1..] == a[1..] + b;
      BlocksAppend(a[1..], b);
    }
  }

  /** A server's messages taken from a state of the specification. */
  function ServerRun(q: State, messages: seq<Fields>): Option<State>
    decreases messages
  {
    if messages == [] then Some(q)
    else
      match FromValues(messages[0])
      case None => None
      case Some(m) =>
        match SpecStep(q, Rx(m))
        case None => None
        case Some(q') => ServerRun(q', messages[1..])
  }

  function BlocksIn(messages: seq<Fields>): seq<Octets> {
    if messages == [] then []
    else
      (match FromValues(messages[0]) case Some(m) => BlockOf(m) case None => []) + BlocksIn(messages[1..])
  }

  lemma {:induction false} ServerRunAppend(q: State, a: seq<Fields>, b: seq<Fields>)
    ensures ServerRun(q, a + b) == match ServerRun(q, a) case None => None case Some(q') => ServerRun(q', b)
    decreases a
  {
    var c := a + b;
    if a == [] {
      assert c == b;
    } else {
      assert c[0] == a[0] && c[1..] == a[1..] + b;
      match FromValues(a[0])
      case None =>
      case Some(m) =>
        match SpecStep(q, Rx(m))
        case None =>
        case Some(q') => ServerRunAppend(q', a[1..], b);
    }
  }

  lemma {:induction false} BlocksInAppend(a: seq<Fields>, b: seq<Fields>)
    ensures BlocksIn(a + b) == BlocksIn(a) + BlocksIn(b)
  {
    var c := a + b;
    if a == [] {
      assert c == b;
    } else {
      assert c[0] == a[0] && c[1..] == a[1..] + b;
      BlocksInAppend(a[1..], b);
    }
  }

  predicate ServerSilent(q: State) {
    q == Idle || q == State.Done
  }

  /** The octets that arrived from a conforming server since the client was in state q: complete messages the
      specification allows, possibly followed by the start of one more if it is still the server's turn. Any
      encoding of the messages will do. */
  predicate Conforming(q: State, data: Octets) {
    var scan := ScanMessages(data);
    && scan.sound
    && match ServerRun(q, scan.messages)
       case None => false
       case Some(q') => ServerSilent(q') ==> scan.used == |data|
  }

  lemma SilentServer(q: State, data: Octets)
    requires ServerSilent(q) && Conforming(q, data)
    ensures data == []
  {
    var scan := ScanMessages(data);
    if data != [] && DecodeMessage(data).Done? {
      ScanStep(data);
    }
  }

  /** Cutting conforming octets anywhere leaves both parts conforming. */
  lemma {:induction false} ConformingSplit(q: State, a: Octets, b: Octets)
    requires Conforming(q, a + b)
    ensures ScanMessages(a).sound && ServerRun(q, ScanMessages(a).messages).Some?
    ensures Conforming(ServerRun(q, ScanMessages(a).messages).value, Leftover(a) + b)
  {
    ScanAppend(a, b);
    ServerRunAppend(q, ScanMessages(a).messages, ScanMessages(Leftover(a) + b).messages);
  }

  /** A conforming server may stop anywhere: what has arrived of conforming octets conforms. */
  lemma {:induction false} ConformingPrefix(q: State, a: Octets, b: Octets)
    requires Conforming(q, a + b)
    ensures Conforming(q, a)
  {
    ConformingSplit(q, a, b);
    var q' := ServerRun(q, ScanMessages(a).messages).value;
    if ServerSilent(q') {
      SilentServer(q', Leftover(a) + b);
      assert |Leftover(a)| == 0;
    }
  }

  // ---------------------------------------------------------------- delivery

  /** Recv accepts exactly what the specification lets a server send, and keeps every block. */
  lemma RecvMatchesSpec(s: Session, m: Message)
    ensures Recv(s, m).Some? <==> SpecStep(s.state, Rx(m)).Some?
    ensures Recv(s, m).Some? ==>
              var s' := Recv(s, m).value;
              && SpecStep(s.state, Rx(m)) == Some(s'.state)
              && s' == s.(state := s'.state, running := s'.running, result := s.result + BlockOf(m))
              && (s'.state == Streaming || (s'.state == Idle && !s'.running))
              && (s'.running ==> s.running)
  {
    assert s.result + [] == s.result;
  }

  /** How delivering messages may change a session: it can only stop running, and then because it has a block
      or the batch is over; it is never left Busy nor both Idle and running. */
  predicate Progressed(s: Session, s': Session, messages: seq<Fields>) {
    && s' == s.(state := s'.state, running := s'.running, result := s'.result)
    && |s.result| <= |s'.result|
    && (s'.running ==> s.running)
    && (s.running && !s'.running ==> s'.state == Idle || s'.result != [])
    && (messages != [] ==> s'.state == Streaming || (s'.state == Idle && !s'.running))
    && (messages == [] ==> s' == s)
  }

  /** Delivering what the specification allows never fails and follows the specification. */
  lemma {:induction false} DeliverConforming(s: Session, messages: seq<Fields>)
    requires ServerRun(s.state, messages).Some?
    decreases messages
    ensures Deliver(PROTOCOL, s, messages).Some?
    ensures var s' := Deliver(PROTOCOL, s, messages).value.session;
            Some(s'.state) == ServerRun(s.state, messages) && Progressed(s, s', messages)
  {
    if messages != [] {
      var m := FromValues(messages[0]).value;
      RecvMatchesSpec(s, m);
      DeliverConforming(Recv(s, m).value, messages[1..]);
    }
  }

  /** Every block delivered is queued, in order. */
  lemma {:induction false} DeliverQueuesBlocks(s: Session, messages: seq<Fields>)
    requires Deliver(PROTOCOL, s, messages).Some?
    decreases messages
    ensures Deliver(PROTOCOL, s, messages).value.session.result == s.result + BlocksIn(messages)
  {
    if messages == [] {
      assert s.result + [] == s.result;
    } else {
      var m := FromValues(messages[0]).value;
      RecvMatchesSpec(s, m);
      var next := Recv(s, m).value;
      DeliverQueuesBlocks(next, messages[1..]);
      assert (s.result + BlockOf(m)) + BlocksIn(messages[1..]) == s.result + (BlockOf(m) + BlocksIn(messages[1..]));
    }
  }

  /** The log of what was delivered is a trace of the specification and brings the blocks of the messages. */
  lemma {:induction false} DeliveredTrace(s: Session, messages: seq<Fields>)
    requires Deliver(PROTOCOL, s, messages).Some?
    decreases messages
    ensures var Delivered(s', received) := Deliver(PROTOCOL, s, messages).value;
            && Accept(s.state, Received(received)) == Some(s'.state)
            && Blocks(Received(received)) == BlocksIn(messages)
  {
    if messages != [] {
      var m := FromValues(messages[0]).value;
      RecvMatchesSpec(s, m);
      var next := Recv(s, m).value;
      DeliveredTrace(next, messages[1..]);
      var rest := Deliver(PROTOCOL, next, messages[1..]).value;
      var trace := Received([m] + rest.received);
      assert trace[0] == Rx(m) && trace[1..] == Received(rest.received);
    }
  }

  /** What a client keeps to between two rounds of the driver, having handed out the blocks returned. */
  predicate LinkInv(e: Link, returned: seq<Octets>) {
    && Settled(e.bytes)
    && Sized(RequestRange(e.session.first, e.session.last))
    && Conforming(e.session.state, e.Pending())
    && Accept(Idle, e.log) == Some(e.session.state)
    && Blocks(e.log) == returned + e.session.result
    && (e.session.state == Busy ==> e.session.running)
  }

  lemma SendKeeps(e: Link, returned: seq<Octets>)
    requires LinkInv(e, returned) && PROTOCOL.MyTurn(e.session)
    ensures Iterate(PROTOCOL, e).Stepped?
    ensures var next := Iterate(PROTOCOL, e).next;
            && LinkInv(next, returned)
            && next == e.(session := e.session.(state := if e.session.done then State.Done else Busy),
                          outbox := next.outbox, log := next.log)
  {
    var m := Send(e.session).value.1;
    Encodes(m);
    SilentServer(Idle, e.Pending());
    var handed := returned + e.session.result;
    assert Accept(Idle, [Tx(m)]) == SpecStep(Idle, Tx(m)) by {
      assert [Tx(m)][1..] == [];
    }
    LogKeeps(e.log, [Tx(m)], Idle, SpecStep(Idle, Tx(m)).value, handed);
    assert handed + [] == handed;
  }

  /** What is still to come for a session, given the complete messages that arrived: the state they will
      lead it to, and its queue of blocks by then. */
  function Outlook(s: Session, messages: seq<Fields>): (Option<State>, seq<Octets>) {
    (ServerRun(s.state, messages), s.result + BlocksIn(messages))
  }

  function Coming(e: Link): (Option<State>, seq<Octets>) {
    Outlook(e.session, ScanMessages(e.Pending()).messages)
  }

  lemma {:induction false} OutlookKept(s: Session, a: seq<Fields>, b: seq<Fields>)
    requires ServerRun(s.state, a).Some?
    ensures Deliver(PROTOCOL, s, a).Some?
    ensures Outlook(s, a + b) == Outlook(Deliver(PROTOCOL, s, a).value.session, b)
  {
    DeliverConforming(s, a);
    DeliverQueuesBlocks(s, a);
    ServerRunAppend(s.state, a, b);
    BlocksInAppend(a, b);
    assert s.result + (BlocksIn(a) + BlocksIn(b)) == (s.result + BlocksIn(a)) + BlocksIn(b);
  }

  /** One conforming frame, whatever part of a message it ends in. */
  lemma {:induction false} FrameKeeps(s: Session, a: Octets, b: Octets)
    requires Conforming(s.state, a + b)
    ensures Feed(PROTOCOL, s, a).Some?
    ensures var Fed(s', received, leftover) := Feed(PROTOCOL, s, a).value;
            && Progressed(s, s', ScanMessages(a).messages)
            && s'.result == s.result + Blocks(Received(received))
            && Settled(leftover) && Conforming(s'.state, leftover + b)
            && Accept(s.state, Received(received)) == Some(s'.state)
            && Outlook(s, ScanMessages(a + b).messages) == Outlook(s', ScanMessages(leftover + b).messages)
  {
    var x, y := ScanMessages(a).messages, ScanMessages(Leftover(a) + b).messages;
    FeedInTwoPhases(PROTOCOL, s, a);
    ConformingSplit(s.state, a, b);
    LeftoverSettled(a);
    DeliverConforming(s, x);
    DeliverQueuesBlocks(s, x);
    DeliveredTrace(s, x);
    OutlookKept(s, x, y);
    assert ScanMessages(a + b).messages == x + y by {
      ScanAppend(a, b);
    }
  }

  lemma {:induction false} LogKeeps(
    log: seq<Event<Message>>, heard: seq<Event<Message>>, q: State, q': State, handed: seq<Octets>)
    requires Accept(Idle, log) == Some(q) && Blocks(log) == handed
    requires Accept(q, heard) == Some(q')
    ensures Accept(Idle, log + heard) == Some(q') && Blocks(log + heard) == handed + Blocks(heard)
  {
    AcceptAppend(Idle, log, heard);
    BlocksAppend(log, heard);
  }

  /** How a frame of a conforming server changes the link. */
  predicate FrameTaken(e: Link, next: Link, heard: seq<Event<Message>>) {
    && next == e.(session := next.session, bytes := next.bytes, inbox := next.inbox, log := e.log + heard)
    && Settled(next.bytes) && Conforming(next.session.state, next.Pending())
    && Accept(e.session.state, heard) == Some(next.session.state)
    && next.session == e.session.(state := next.session.state, running := next.session.running,
                                  result := e.session.result + Blocks(heard))
    && (next.session == e.session || next.session.state == Streaming
        || (next.session.state == Idle && !next.session.running))
    && (next.session.running || next.session.state == Idle || next.session.result != [])
    && (forall h | h in heard :: h.Rx?)
  }

  lemma {:induction false} NothingButHeard(received: seq<Message>)
    ensures forall h | h in Received(received) :: h.Rx?
  {
    if received != [] {
      NothingButHeard(received[1..]);
    }
  }

  lemma ReceiveStep(e: Link) returns (next: Link, heard: seq<Event<Message>>)
    requires PROTOCOL.PeersTurn(e.session) && e.inbox != [] && Conforming(e.session.state, e.Pending())
    ensures Iterate(PROTOCOL, e) == Stepped(next)
    ensures FrameTaken(e, next, heard) && Coming(next) == Coming(e)
  {
    var a, b := e.bytes + e.inbox[0], Concat(e.inbox[1..]);
    assert e.Pending() == a + b;
    FrameKeeps(e.session, a, b);
    next := Iterate(PROTOCOL, e).next;
    heard := Received(Feed(PROTOCOL, e.session, a).value.received);
    NothingButHeard(Feed(PROTOCOL, e.session, a).value.received);
  }

  lemma ReceiveKeeps(e: Link, returned: seq<Octets>, next: Link, heard: seq<Event<Message>>)
    requires LinkInv(e, returned) && FrameTaken(e, next, heard)
    ensures LinkInv(next, returned)
  {
    hide Conforming, Settled;
    LogKeeps(e.log, heard, e.session.state, next.session.state, returned + e.session.result);
    assert (returned + e.session.result) + Blocks(heard) == returned + (e.session.result + Blocks(heard));
  }

  // ---------------------------------------------------------------- calls

  predicate Waits(e: Link) {
    e.inbox == [] && e.session.running && (e.session.state == Busy || e.session.state == Streaming)
  }

  predicate Rests(e: Link) {
    !e.session.running && (e.session.state == Idle || e.session.state == Streaming)
  }

  /** The invariant, and that a link is closed only by a client that wants it closed. */
  predicate OpenInv(e: Link, returned: seq<Octets>, done: bool) {
    LinkInv(e, returned) && e.session.done == done && (e.session.state == State.Done ==> done)
  }

  lemma RoundKeeps(e: Link, returned: seq<Octets>, done: bool)
    requires OpenInv(e, returned, done)
    ensures !Iterate(PROTOCOL, e).Panicked?
    ensures Iterate(PROTOCOL, e).Stepped? ==> OpenInv(Iterate(PROTOCOL, e).next, returned, done)
  {
    if PROTOCOL.MyTurn(e.session) {
      SendKeeps(e, returned);
    } else if PROTOCOL.PeersTurn(e.session) && e.inbox != [] {
      var next, heard := ReceiveStep(e);
      ReceiveKeeps(e, returned, next, heard);
    }
  }

  /** The driver never panics on a conforming server, and whatever it goes through keeps the invariant. */
  lemma DriveKeeps(e: Link, returned: seq<Octets>)
    requires OpenInv(e, returned, e.session.done)
    ensures Go(e).0 != Crashed && OpenInv(Go(e).1, returned, e.session.done)
    ensures Go(e).0 == Suspended ==> Waits(Go(e).1)
    ensures Go(e).0 == Completed ==> Go(e).1.session.state == State.Done || Rests(Go(e).1)
  {
    var inv := (x: Link) => OpenInv(x, returned, e.session.done);
    forall x | inv(x)
      ensures !Iterate(PROTOCOL, x).Panicked? && (Iterate(PROTOCOL, x).Stepped? ==> inv(Iterate(PROTOCOL, x).next))
    {
      RoundKeeps(x, returned, e.session.done);
    }
    SendsOnce();
    DriveInvariant(PROTOCOL, e, inv);
    var end := Go(e).1;
    assert inv(end);
    assert PROTOCOL.agency(end.session) == AgencyOf(end.session);
  }

  /** Receiving changes nothing about what is to come, and a call that ends while the batch goes on has a
      block to hand out. */
  lemma ReceivingKeepsOutlook(e: Link)
    requires PROTOCOL.PeersTurn(e.session) && Conforming(e.session.state, e.Pending())
    ensures Coming(Go(e).1) == Coming(e)
    ensures Go(e).0 == Completed && Go(e).1.session.state == Streaming ==> Go(e).1.session.result != []
  {
    var coming := Coming(e);
    var inv := (x: Link) =>
      && Conforming(x.session.state, x.Pending()) && Coming(x) == coming
      && !PROTOCOL.MyTurn(x.session)
      && (x.session.running || x.session.state == Idle || x.session.result != []);
    forall x | inv(x)
      ensures !Iterate(PROTOCOL, x).Panicked? && (Iterate(PROTOCOL, x).Stepped? ==> inv(Iterate(PROTOCOL, x).next))
    {
      if PROTOCOL.PeersTurn(x.session) && x.inbox != [] {
        var next, heard := ReceiveStep(x);
      }
    }
    SendsOnce();
    DriveInvariant(PROTOCOL, e, inv);
  }
}

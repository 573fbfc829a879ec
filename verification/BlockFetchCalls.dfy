/** Block-Fetch as its callers use it: every sequence of calls against a conforming server. */
module BlockFetchCalls {
  import opened Bytes
  import opened MessageStream
  import opened Driver
  import opened Values
  import opened BlockFetch
  import opened BlockFetchRuns

  // ---------------------------------------------------------------- every sequence of calls

  datatype Action = Arrive(frame: Octets) | Run | Next | Finish | Poll

  /** AtRest: no call is active. Closed: done consumed the client. Broken: a panic. */
  datatype Phase = AtRest | Running | Fetching | Finishing | Closed | Broken

  datatype Caller = Caller(link: Link, phase: Phase, returned: seq<Octets>)

  function Returned(block: Option<Octets>): seq<Octets> {
    if block.Some? then [block.value] else []
  }

  function HandOut(link: Link, returned: seq<Octets>): Caller {
    var taken := Take(link);
    Caller(taken.link, AtRest, returned + Returned(taken.block))
  }

  /** Starting a call borrows the client until the call completes, so actions that would start another one
      meanwhile do nothing; a stream may be dropped at any time, which is no action at all. A frame may arrive
      whenever it likes. Poll lets the active call go on. */
  function Act(c: Caller, a: Action): Caller {
    match a
    case Arrive(frame) => c.(link := c.link.Arrive([frame]))
    case Run => if c.phase == AtRest then c.(link := Resumed(c.link), phase := Running) else c
    case Next =>
      if c.phase != AtRest then c
      else if c.link.session.result != [] || c.link.session.state == Idle then HandOut(c.link, c.returned)
      else if c.link.session.state == Streaming then c.(link := Resumed(c.link), phase := Fetching)
      else c.(phase := Broken)
    case Finish =>
      if c.phase == AtRest then c.(link := Closing(c.link), phase := Finishing) else c
    case Poll =>
      if c.phase != Running && c.phase != Fetching && c.phase != Finishing then c
      else
        match Go(c.link)
        case (Crashed, _) => c.(phase := Broken)
        case (Suspended, link) => c.(link := link)
        case (Completed, link) =>
          if c.phase == Running then c.(link := link, phase := AtRest)
          else if c.phase == Fetching then HandOut(link, c.returned)
          else c.(link := link, phase := Closed)
  }

  function ActAll(c: Caller, actions: seq<Action>): Caller
    decreases actions
  {
    if actions == [] then c else ActAll(Act(c, actions[0]), actions[1..])
  }

  /** The assumption on the peer: whenever a frame arrives, all that arrived so far conforms. */
  predicate PeerConforms(c: Caller, actions: seq<Action>)
    decreases actions
  {
    actions != [] ==>
      var c' := Act(c, actions[0]);
      && (actions[0].Arrive? ==> Conforming(c'.link.session.state, c'.link.Pending()))
      && PeerConforms(c', actions[1..])
  }

  ghost predicate CallerInv(c: Caller) {
    && c.phase != Broken
    && OpenInv(c.link, c.returned, c.phase == Finishing || c.phase == Closed)
    && (c.phase == AtRest ==> Rests(c.link))
    && (c.phase == Closed ==> c.link.session.state != Busy)
    && (c.phase == Running ==> c.link.session.running)
    && (c.phase == Fetching ==> PROTOCOL.PeersTurn(c.link.session))
  }

  lemma ArrivalKeeps(c: Caller, frame: Octets)
    requires CallerInv(c)
    requires var c' := Act(c, Arrive(frame)); Conforming(c'.link.session.state, c'.link.Pending())
    ensures CallerInv(Act(c, Arrive(frame)))
  {
  }

  lemma HandOutKeeps(link: Link, returned: seq<Octets>)
    requires OpenInv(link, returned, false) && Rests(link)
    ensures CallerInv(HandOut(link, returned))
  {
    if link.session.result != [] {
      var result := link.session.result;
      assert returned + result == (returned + [result[0]]) + result[1..];
    } else {
      assert returned + [] == returned;
    }
  }

  lemma PollKeeps(c: Caller)
    requires CallerInv(c)
    ensures CallerInv(Act(c, Poll))
  {
    if c.phase == Running || c.phase == Fetching || c.phase == Finishing {
      DriveKeeps(c.link, c.returned);
      var (poll, link) := Go(c.link);
      if poll == Completed && c.phase == Fetching {
        HandOutKeeps(link, c.returned);
      }
    }
  }

  lemma {:induction false} ActKeeps(c: Caller, a: Action)
    requires CallerInv(c) && PeerConforms(c, [a])
    ensures CallerInv(Act(c, a))
  {
    match a
    case Arrive(frame) => ArrivalKeeps(c, frame);
    case Poll => PollKeeps(c);
    case Next =>
      if c.phase == AtRest && (c.link.session.result != [] || c.link.session.state == Idle) {
        HandOutKeeps(c.link, c.returned);
      }
    case _ =>
  }

  lemma {:induction false} ActAllKeeps(c: Caller, actions: seq<Action>)
    requires CallerInv(c) && PeerConforms(c, actions)
    ensures CallerInv(ActAll(c, actions))
    decreases actions
  {
    if actions != [] {
      assert PeerConforms(c, [actions[0]]) by {
        assert [actions[0]][1..] == [];
      }
      ActKeeps(c, actions[0]);
      ActAllKeeps(Act(c, actions[0]), actions[1..]);
    }
  }

  /** Over every sequence of calls, polls and arrivals, streams dropped midway included: no panic; the blocks
      handed out and those still queued are exactly the blocks received, in order; the messages sent and
      received form a trace of the specification, so the client sends only when it has the agency there, and
      its state is the specification's; no call ends Busy. */
  lemma {:induction false} EveryRunIsSafe(first: Point, last: Point, actions: seq<Action>)
    requires Sized(RequestRange(first, last))
    requires PeerConforms(Caller(Fresh(first, last), AtRest, []), actions)
    ensures var c := ActAll(Caller(Fresh(first, last), AtRest, []), actions);
            var s := c.link.session;
            && c.phase != Broken
            && c.returned + s.result == Blocks(c.link.log)
            && Accept(Idle, c.link.log) == Some(s.state)
            && (s.state == Busy ==> s.running)
            && (c.phase == AtRest ==> s.state == Idle || s.state == Streaming)
            && (c.phase == Closed ==> s.state != Busy)
  {
    var start := Caller(Fresh(first, last), AtRest, []);
    assert ScanMessages([]) == Scan([], 0, true);
    assert start.link.Pending() == [];
    ActAllKeeps(start, actions);
  }

  /** At any time next answers None only when the batch is over and every block received has been handed out. */
  lemma NoneMeansOver(c: Caller, a: Action)
    requires CallerInv(c) && ((a.Next? && c.phase == AtRest) || (a.Poll? && c.phase == Fetching))
    ensures var d := Act(c, a);
            d.phase == AtRest && d.returned == c.returned ==>
              d.link.session.state == Idle && d.returned == Blocks(d.link.log)
  {
    var d := Act(c, a);
    if a.Poll? {
      DriveKeeps(c.link, c.returned);
      ReceivingKeepsOutlook(c.link);
    }
    assert c.returned + [] == c.returned;
  }

  // ---------------------------------------------------------------- calls as the methods make them

  /** Starting next and letting it go on is the call that the method computes; and so it is for run and done. */
  lemma CallsAreMethods(c: Caller)
    requires c.phase == AtRest
    ensures var (a, d) := (NextCall(c.link), Act(Act(c, Next), Poll));
            match a.poll
            case Completed => d == Caller(a.link, AtRest, c.returned + Returned(a.block))
            case Suspended => d == Caller(a.link, Fetching, c.returned)
            case Crashed => d.phase == Broken
    ensures var (d, (poll, link)) := (Act(Act(c, Run), Poll), Go(Resumed(c.link)));
            if poll == Crashed then d.phase == Broken
            else d == Caller(link, if poll == Completed then AtRest else Running, c.returned)
    ensures var (d, (poll, link)) := (Act(Act(c, Finish), Poll), Go(Closing(c.link)));
            if poll == Crashed then d.phase == Broken
            else d == Caller(link, if poll == Completed then Closed else Finishing, c.returned)
  {
  }

  // ---------------------------------------------------------------- the range

  /** All the requests of a log are for one range. */
  predicate AsksFor(log: seq<Event<Message>>, first: Point, last: Point) {
    forall e | e in log && e.Tx? && e.message.RequestRange? :: e.message == RequestRange(first, last)
  }

  predicate Fetches(e: Link, first: Point, last: Point) {
    e.session.first == first && e.session.last == last && AsksFor(e.log, first, last)
  }

  lemma {:induction false} FeedKeepsRange(s: Session, data: Octets)
    requires Feed(PROTOCOL, s, data).Some?
    ensures var s' := Feed(PROTOCOL, s, data).value.session; s'.first == s.first && s'.last == s.last
    decreases |data|
  {
    if data != [] && DecodeMessage(data).Done? {
      var Done(fields, used) := DecodeMessage(data);
      FeedKeepsRange(Recv(s, FromValues(fields).value).value, data[used..]);
    }
  }

  lemma {:induction false} DriveFetches(e: Link, first: Point, last: Point)
    requires Fetches(e, first, last)
    ensures Fetches(Go(e).1, first, last)
    decreases |e.inbox|, if PROTOCOL.MyTurn(e.session) then 1 else 0
  {
    hide Feed;
    SendsOnce();
    if Iterate(PROTOCOL, e).Stepped? {
      if !PROTOCOL.MyTurn(e.session) {
        var data := e.bytes + e.inbox[0];
        FeedKeepsRange(e.session, data);
        NothingButHeard(Feed(PROTOCOL, e.session, data).value.received);
      }
      DriveFetches(Iterate(PROTOCOL, e).next, first, last);
    }
  }

  lemma {:induction false} ActAllFetches(c: Caller, actions: seq<Action>, first: Point, last: Point)
    requires Fetches(c.link, first, last)
    ensures Fetches(ActAll(c, actions).link, first, last)
    decreases actions
  {
    if actions != [] {
      if actions[0].Poll? {
        DriveFetches(c.link, first, last);
      }
      ActAllFetches(Act(c, actions[0]), actions[1..], first, last);
    }
  }

  /** Whatever is called and whatever its server does, a client asks for no other range than the one it was built
      for. */
  lemma {:induction false} OnlyItsRange(first: Point, last: Point, actions: seq<Action>)
    ensures AsksFor(ActAll(Caller(Fresh(first, last), AtRest, []), actions).link.log, first, last)
  {
    ActAllFetches(Caller(Fresh(first, last), AtRest, []), actions, first, last);
  }

  // ---------------------------------------------------------------- done

  /** Since a log was as before, it has gained messages received and nothing else. */
  predicate OnlyHeard(before: seq<Event<Message>>, log: seq<Event<Message>>) {
    before <= log && forall h | h in log[|before|..] :: h.Rx?
  }

  lemma MoreHeard(before: seq<Event<Message>>, log: seq<Event<Message>>, heard: seq<Event<Message>>)
    requires OnlyHeard(before, log) && forall h | h in heard :: h.Rx?
    ensures OnlyHeard(before, log + heard)
  {
    assert (log + heard)[|before|..] == log[|before|..] + heard;
  }

  /** A call that waits for the peer sends nothing and never closes the link. */
  predicate Listens(e: Link, before: seq<Event<Message>>) {
    && Conforming(e.session.state, e.Pending())
    && !PROTOCOL.MyTurn(e.session) && e.session.state != State.Done
    && OnlyHeard(before, e.log)
  }

  lemma ListeningGoesOn(e: Link, before: seq<Event<Message>>)
    requires Listens(e, before)
    ensures Go(e).0 != Crashed && Listens(Go(e).1, before)
  {
    var inv := (x: Link) => Listens(x, before);
    forall x | inv(x)
      ensures !Iterate(PROTOCOL, x).Panicked? && (Iterate(PROTOCOL, x).Stepped? ==> inv(Iterate(PROTOCOL, x).next))
    {
      if PROTOCOL.PeersTurn(x.session) && x.inbox != [] {
        var next, heard := ReceiveStep(x);
        MoreHeard(before, x.log, heard);
      }
    }
    SendsOnce();
    DriveInvariant(PROTOCOL, e, inv);
    assert inv(Go(e).1);
  }

  /** After done nothing is called any more: frames may arrive, and that is all. */
  lemma {:induction false} StaysClosed(c: Caller, actions: seq<Action>)
    requires c.phase == Closed
    ensures var d := ActAll(c, actions);
            d.phase == Closed && d.link == c.link.(inbox := d.link.inbox) && d.returned == c.returned
    decreases actions
  {
    if actions != [] {
      StaysClosed(Act(c, actions[0]), actions[1..]);
    }
  }

  lemma {:induction false} ListeningNeverCloses(c: Caller, actions: seq<Action>, before: seq<Event<Message>>)
    requires c.phase == Finishing && Listens(c.link, before) && PeerConforms(c, actions)
    ensures var d := ActAll(c, actions);
            d.phase != Broken && d.link.session.state != State.Done && OnlyHeard(before, d.link.log)
    decreases actions
  {
    hide Conforming, Feed, OnlyHeard;
    if actions != [] {
      var next := Act(c, actions[0]);
      if actions[0].Poll? {
        ListeningGoesOn(c.link, before);
      }
      if next.phase == Closed {
        StaysClosed(next, actions[1..]);
      } else {
        ListeningNeverCloses(next, actions[1..], before);
      }
    }
  }

  /** A client that has nothing to wait for before it closes the link. */
  predicate MayClose(e: Link) {
    && e.session.running && e.session.done && e.session.state == Idle
    && Conforming(Idle, e.Pending())
  }

  lemma {:induction false} ClosesOncePolled(c: Caller, actions: seq<Action>)
    requires c.phase == Finishing && MayClose(c.link) && PeerConforms(c, actions)
    ensures var d := ActAll(c, actions);
            if Poll in actions then
              && d.phase == Closed && d.link.session.state == State.Done
              && d.link.log == c.link.log + [Tx(ClientDone)]
              && EncodableMessage(ToValues(ClientDone))
              && d.link.outbox == c.link.outbox + [EncodeMessage(ToValues(ClientDone))]
            else d.phase == Finishing && d.link.session.state == Idle && d.link.log == c.link.log
    decreases actions
  {
    hide Conforming, Feed;
    if actions != [] {
      if actions[0].Poll? {
        Encodes(ClientDone);
        SendsOnce();
        var next := Iterate(PROTOCOL, c.link).next;
        assert Go(c.link) == Go(next) && Go(next) == (Completed, next);
        StaysClosed(Act(c, Poll), actions[1..]);
      } else {
        ClosesOncePolled(Act(c, actions[0]), actions[1..]);
      }
    }
  }

  /** When done ends the protocol, over everything that can happen after it was called: from Idle as soon as it
      is polled, with one ClientDone and nothing else sent; from a stream midway never, and then nothing at all
      is sent. */
  lemma {:induction false} FinishCloses(c: Caller, actions: seq<Action>)
    requires CallerInv(c) && c.phase == AtRest && PeerConforms(Act(c, Finish), actions)
    ensures var d := ActAll(Act(c, Finish), actions);
            && d.phase != Broken
            && (d.link.session.state == State.Done <==> c.link.session.state == Idle && Poll in actions)
            && EncodableMessage(ToValues(ClientDone))
            && if c.link.session.state == Idle && Poll in actions then
                 && d.link.log == c.link.log + [Tx(ClientDone)]
                 && d.link.outbox == c.link.outbox + [EncodeMessage(ToValues(ClientDone))]
               else OnlyHeard(c.link.log, d.link.log)
  {
    Encodes(ClientDone);
    var finishing := Act(c, Finish);
    if c.link.session.state == Idle {
      ClosesOncePolled(finishing, actions);
    } else {
      ListeningNeverCloses(finishing, actions, c.link.log);
    }
  }
}

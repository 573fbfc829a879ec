/** Chain-Sync against a conforming server: over every sequence of calls, each is given the answer to its own
    question. */
module ChainSyncRuns {
  import opened Bytes
  import opened MessageStream
  import opened Driver
  import opened Values
  import opened Headers
  import opened ChainSync
  import opened ChainSyncClient

  // ---------------------------------------------------------------- the specification machine

  /** The Chain-Sync state machine of "The Shelley Networking Protocol" that also keeps the books: the question
      asked last, if it is open, and every question with the answer the server gave to it. */
  datatype Ledger = Ledger(state: State, asked: Option<Query>, answered: seq<(Query, Answer)>)

  const EMPTY: Ledger := Ledger(Idle, None, [])

  function Settle(l: Ledger, a: Answer): Option<Ledger> {
    if l.asked.None? then None else Some(Ledger(Idle, None, l.answered + [(l.asked.value, a)]))
  }

  /** One message of the trace. A header has to be one the header decoder accepts. */
  function Enter(H: Octets -> Octets, l: Ledger, event: Event<Message>): Option<Ledger> {
    match event
    case Tx(FindIntersect(points)) =>
      if l.state == Idle then Some(Ledger(Intersecting, Some(ForIntersect(points)), l.answered)) else None
    case Tx(RequestNext) =>
      if l.state == Idle then Some(Ledger(CanAwait, Some(ForReply), l.answered)) else None
    case Rx(AwaitReply) => if l.state == CanAwait then Some(l.(state := MustReply)) else None
    case Rx(RollForward(header, tip)) =>
      if (l.state == CanAwait || l.state == MustReply) && Unwrap(H, header).Some?
      then Settle(l, Replied(Forward(Unwrap(H, header).value, tip))) else None
    case Rx(RollBackward(point, tip)) =>
      if l.state == CanAwait || l.state == MustReply then Settle(l, Replied(Backward(point, tip))) else None
    case Rx(IntersectFound(point, tip)) =>
      if l.state == Intersecting then Settle(l, Intersected(Found(point, tip))) else None
    case Rx(IntersectNotFound(tip)) =>
      if l.state == Intersecting then Settle(l, Intersected(NotFound(tip))) else None
    case _ => None
  }

  function EnterAll(H: Octets -> Octets, l: Ledger, trace: seq<Event<Message>>): Option<Ledger>
    decreases trace
  {
    if trace == [] then Some(l)
    else
      match Enter(H, l, trace[0])
      case None => None
      case Some(l') => EnterAll(H, l', trace[1..])
  }

  function ServerRun(H: Octets -> Octets, l: Ledger, messages: seq<Fields>): Option<Ledger>
    decreases messages
  {
    if messages == [] then Some(l)
    else
      match FromValues(messages[0])
      case None => None
      case Some(m) =>
        match Enter(H, l, Rx(m))
        case None => None
        case Some(l') => ServerRun(H, l', messages[1..])
  }

  lemma {:induction false} EnterAppend(H: Octets -> Octets, l: Ledger, a: seq<Event<Message>>, b: seq<Event<Message>>)
    ensures EnterAll(H, l, a + b) == match EnterAll(H, l, a) case None => None case Some(l') => EnterAll(H, l', b)
    decreases a
  {
    var c := a + b;
    if a == [] {
      assert c == b;
    } else {
      assert c[0] == a[0] && c[1..] == a[1..] + b;
      match Enter(H, l, a[0])
      case None =>
      case Some(l') => EnterAppend(H, l', a[1..], b);
    }
  }

  lemma {:induction false} ServerRunAppend(H: Octets -> Octets, l: Ledger, a: seq<Fields>, b: seq<Fields>)
    ensures ServerRun(H, l, a + b) ==
            match ServerRun(H, l, a) case None => None case Some(l') => ServerRun(H, l', b)
    decreases a
  {
    var c := a + b;
    if a == [] {
      assert c == b;
    } else {
      assert c[0] == a[0] && c[1..] == a[1..] + b;
      match FromValues(a[0])
      case None =>
      case Some(m) =>
        match Enter(H, l, Rx(m))
        case None =>
        case Some(l') => ServerRunAppend(H, l', a[1..], b);
    }
  }

  lemma {:induction false} SilentWhenIdle(H: Octets -> Octets, l: Ledger, messages: seq<Fields>)
    requires l.state == Idle && ServerRun(H, l, messages).Some?
    ensures messages == []
  {
  }

  /** The octets that arrived from a conforming server since the books stood at l. */
  predicate Conforming(H: Octets -> Octets, l: Ledger, data: Octets) {
    var scan := ScanMessages(data);
    && scan.sound
    && match ServerRun(H, l, scan.messages)
       case None => false
       case Some(l') => l'.state == Idle ==> scan.used == |data|
  }

  lemma SilentServer(H: Octets -> Octets, l: Ledger, data: Octets)
    requires l.state == Idle && Conforming(H, l, data)
    ensures data == []
  {
    SilentWhenIdle(H, l, ScanMessages(data).messages);
    if data != [] && DecodeMessage(data).Done? {
      ScanStep(data);
    }
  }

  /** Where the books will stand once the complete messages of data have been entered. */
  function Outcome(H: Octets -> Octets, l: Ledger, data: Octets): Option<Ledger> {
    ServerRun(H, l, ScanMessages(data).messages)
  }

  lemma {:induction false} ConformingSplit(H: Octets -> Octets, l: Ledger, a: Octets, b: Octets)
    requires Conforming(H, l, a + b)
    ensures ScanMessages(a).sound && ServerRun(H, l, ScanMessages(a).messages).Some?
    ensures var l' := ServerRun(H, l, ScanMessages(a).messages).value;
            && Conforming(H, l', Leftover(a) + b)
            && Outcome(H, l', Leftover(a) + b) == Outcome(H, l, a + b)
  {
    ScanAppend(a, b);
    ServerRunAppend(H, l, ScanMessages(a).messages, ScanMessages(Leftover(a) + b).messages);
  }

  // ---------------------------------------------------------------- one call

  predicate Unsent(s: Session, l: Ledger, q: Query, calls: seq<(Query, Answer)>) {
    s == Session(Some(q), None, None, Idle) && l == Ledger(Idle, None, calls)
  }

  predicate Awaited(s: Session, l: Ledger, q: Query, calls: seq<(Query, Answer)>) {
    && s == Session(Some(q), None, None, l.state)
    && l == Ledger(l.state, Some(q), calls)
    && if q.ForIntersect? then l.state == Intersecting else l.state == CanAwait || l.state == MustReply
  }

  /** The session that holds an answer until its caller collects it. */
  function Holding(a: Answer): Session {
    match a
    case Intersected(i) => Session(None, Some(i), None, Idle)
    case Replied(r) => Session(None, None, Some(r), Idle)
  }

  predicate Answered(s: Session, l: Ledger, q: Query, calls: seq<(Query, Answer)>) {
    && l.answered != []
    && var a := l.answered[|l.answered| - 1].1;
       && s == Holding(a)
       && l == Ledger(Idle, None, calls + [(q, a)])
       && (a.Intersected? <==> q.ForIntersect?)
  }

  /** A server's message to a waiting client: accepted as the specification has it, and an answer is kept. */
  lemma RecvTracks(H: Octets -> Octets, s: Session, l: Ledger, m: Message, q: Query, calls: seq<(Query, Answer)>)
    requires Awaited(s, l, q, calls) && Enter(H, l, Rx(m)).Some?
    ensures Recv(H, s, m).Some?
    ensures var (s', l') := (Recv(H, s, m).value, Enter(H, l, Rx(m)).value);
            Awaited(s', l', q, calls) || Answered(s', l', q, calls)
  {
  }

  lemma {:induction false} DeliverTracks(
    H: Octets -> Octets, s: Session, l: Ledger, messages: seq<Fields>, q: Query, calls: seq<(Query, Answer)>)
    requires Awaited(s, l, q, calls) || (Answered(s, l, q, calls) && messages == [])
    requires ServerRun(H, l, messages).Some?
    ensures Deliver(ProtocolWith(H), s, messages).Some?
    ensures var Delivered(s', received) := Deliver(ProtocolWith(H), s, messages).value;
            var l' := ServerRun(H, l, messages).value;
            && (Awaited(s', l', q, calls) || Answered(s', l', q, calls))
            && EnterAll(H, l, Received(received)) == Some(l')
    decreases messages
  {
    if messages != [] {
      var m := FromValues(messages[0]).value;
      RecvTracks(H, s, l, m, q, calls);
      var s', l' := Recv(H, s, m).value, Enter(H, l, Rx(m)).value;
      if Answered(s', l', q, calls) {
        SilentWhenIdle(H, l', messages[1..]);
      }
      DeliverTracks(H, s', l', messages[1..], q, calls);
      var rest := Deliver(ProtocolWith(H), s', messages[1..]).value;
      var trace := Received([m] + rest.received);
      assert trace[0] == Rx(m) && trace[1..] == Received(rest.received);
    }
  }

  // ---------------------------------------------------------------- the driver during a call

  predicate SizedQuery(q: Query) {
    q.ForIntersect? ==> Sized(FindIntersect(q.points))
  }

  /** The link of a call that asks q after calls have been answered. */
  predicate LinkInv(H: Octets -> Octets, e: Link, q: Query, calls: seq<(Query, Answer)>) {
    && Settled(e.bytes)
    && SizedQuery(q)
    && match EnterAll(H, EMPTY, e.log)
       case None => false
       case Some(l) =>
         && Conforming(H, l, e.Pending())
         && (Unsent(e.session, l, q, calls) || Awaited(e.session, l, q, calls) || Answered(e.session, l, q, calls))
  }

  lemma SendKeeps(H: Octets -> Octets, e: Link, q: Query, calls: seq<(Query, Answer)>)
    requires LinkInv(H, e, q, calls) && ProtocolWith(H).MyTurn(e.session)
    ensures Iterate(ProtocolWith(H), e).Stepped? && LinkInv(H, Iterate(ProtocolWith(H), e).next, q, calls)
  {
    var m := Send(e.session).value.1;
    var l := EnterAll(H, EMPTY, e.log).value;
    Encodes(m);
    SilentServer(H, l, e.Pending());
    EnterAppend(H, EMPTY, e.log, [Tx(m)]);
    assert EnterAll(H, l, [Tx(m)]) == Enter(H, l, Tx(m)) by {
      assert [Tx(m)][1..] == [];
    }
  }

  lemma {:induction false} FrameTracks(
    H: Octets -> Octets, s: Session, l: Ledger, a: Octets, b: Octets, q: Query, calls: seq<(Query, Answer)>)
    requires Awaited(s, l, q, calls) && Conforming(H, l, a + b)
    ensures Feed(ProtocolWith(H), s, a).Some?
    ensures var Fed(s', received, leftover) := Feed(ProtocolWith(H), s, a).value;
            var books := EnterAll(H, l, Received(received));
            && books.Some?
            && (Awaited(s', books.value, q, calls) || Answered(s', books.value, q, calls))
            && Settled(leftover) && Conforming(H, books.value, leftover + b)
            && Outcome(H, books.value, leftover + b) == Outcome(H, l, a + b)
  {
    FeedInTwoPhases(ProtocolWith(H), s, a);
    ConformingSplit(H, l, a, b);
    LeftoverSettled(a);
    DeliverTracks(H, s, l, ScanMessages(a).messages, q, calls);
  }

  /** Where the books of a link will stand once all that has arrived is entered. */
  function Prospect(H: Octets -> Octets, e: Link): Option<Ledger> {
    match EnterAll(H, EMPTY, e.log)
    case None => None
    case Some(l) => Outcome(H, l, e.Pending())
  }

  lemma ReceiveKeeps(H: Octets -> Octets, e: Link, q: Query, calls: seq<(Query, Answer)>)
    requires LinkInv(H, e, q, calls) && ProtocolWith(H).PeersTurn(e.session) && e.inbox != []
    ensures Iterate(ProtocolWith(H), e).Stepped?
    ensures var next := Iterate(ProtocolWith(H), e).next;
            LinkInv(H, next, q, calls) && !ProtocolWith(H).MyTurn(next.session) && Prospect(H, next) == Prospect(H, e)
  {
    var a, b := e.bytes + e.inbox[0], Concat(e.inbox[1..]);
    assert e.Pending() == a + b;
    var l := EnterAll(H, EMPTY, e.log).value;
    FrameTracks(H, e.session, l, a, b, q, calls);
    EnterAppend(H, EMPTY, e.log, Received(Feed(ProtocolWith(H), e.session, a).value.received));
  }

  lemma RoundKeeps(H: Octets -> Octets, e: Link, q: Query, calls: seq<(Query, Answer)>)
    requires LinkInv(H, e, q, calls)
    ensures var round := Iterate(ProtocolWith(H), e);
            !round.Panicked? && (round.Stepped? ==> LinkInv(H, round.next, q, calls))
  {
    if ProtocolWith(H).MyTurn(e.session) {
      SendKeeps(H, e, q, calls);
    } else if ProtocolWith(H).PeersTurn(e.session) && e.inbox != [] {
      ReceiveKeeps(H, e, q, calls);
    }
  }

  lemma EndsAnswered(H: Octets -> Octets, e: Link, q: Query, calls: seq<(Query, Answer)>)
    requires LinkInv(H, e, q, calls) && ProtocolWith(H).agency(e.session) == Nobody
    ensures Answered(e.session, EnterAll(H, EMPTY, e.log).value, q, calls)
  {
    assert AgencyOf(e.session) == Nobody;
  }

  lemma CallKeeps(H: Octets -> Octets, e: Link, q: Query, calls: seq<(Query, Answer)>)
    requires LinkInv(H, e, q, calls)
    ensures Go(H, e).0 != Crashed && LinkInv(H, Go(H, e).1, q, calls)
    ensures Go(H, e).0 == Completed ==>
              var end := Go(H, e).1;
              Answered(end.session, EnterAll(H, EMPTY, end.log).value, q, calls)
  {
    var p := ProtocolWith(H);
    var inv := (x: Link) => LinkInv(H, x, q, calls);
    forall x | inv(x)
      ensures !Iterate(p, x).Panicked? && (Iterate(p, x).Stepped? ==> inv(Iterate(p, x).next))
    {
      RoundKeeps(H, x, q, calls);
    }
    SendsOnce(H);
    DriveInvariant(p, e, inv);
    var end := Go(H, e).1;
    assert inv(end);
    if Go(H, e).0 == Completed {
      EndsAnswered(H, end, q, calls);
    }
  }

  /** A call whose whole answer has arrived, in whatever frames, does not wait any longer: it ends, and with
      that answer. */
  lemma AnswerEndsCall(H: Octets -> Octets, e: Link, q: Query, calls: seq<(Query, Answer)>)
    requires LinkInv(H, e, q, calls) && ProtocolWith(H).PeersTurn(e.session)
    requires Prospect(H, e).Some? && Prospect(H, e).value.state == Idle
    ensures Go(H, e).0 == Completed && EnterAll(H, EMPTY, Go(H, e).1.log) == Prospect(H, e)
    ensures Prospect(H, e).value.answered != []
    ensures var (asked, answer) := Prospect(H, e).value.answered[|Prospect(H, e).value.answered| - 1];
            asked == q && Go(H, e).1.session == Holding(answer)
  {
    hide Conforming, EnterAll, Feed;
    var p := ProtocolWith(H);
    var goal := Prospect(H, e);
    var inv := (x: Link) => LinkInv(H, x, q, calls) && !p.MyTurn(x.session) && Prospect(H, x) == goal;
    forall x | inv(x)
      ensures !Iterate(p, x).Panicked? && (Iterate(p, x).Stepped? ==> inv(Iterate(p, x).next))
    {
      if p.PeersTurn(x.session) && x.inbox != [] {
        ReceiveKeeps(H, x, q, calls);
      }
    }
    SendsOnce(H);
    DriveInvariant(p, e, inv);
    var end := Go(H, e).1;
    assert inv(end);
    if Go(H, e).0 == Suspended {
      StillOpen(H, end, q, calls);
    } else {
      EndsAnswered(H, end, q, calls);
      SilentServer(H, EnterAll(H, EMPTY, end.log).value, end.Pending());
    }
  }

  lemma StillOpen(H: Octets -> Octets, e: Link, q: Query, calls: seq<(Query, Answer)>)
    requires LinkInv(H, e, q, calls) && ProtocolWith(H).PeersTurn(e.session) && e.inbox == []
    ensures Prospect(H, e).Some? && Prospect(H, e).value.state != Idle
  {
    assert e.Pending() == e.bytes;
    SettledScan(e.bytes);
  }

  // ---------------------------------------------------------------- every sequence of calls

  /** A client, the question of its active call, and the calls that have returned, with what they returned. */
  datatype Caller = Caller(link: Link, active: Option<Query>, calls: seq<(Query, Answer)>, broken: bool)

  datatype Action = Arrive(frame: Octets) | Ask(query: Query) | Poll

  /** A call borrows the client until it returns; frames arrive whenever they like; Poll lets the call go on. */
  function Act(H: Octets -> Octets, c: Caller, a: Action): Caller {
    match a
    case Arrive(frame) => c.(link := c.link.Arrive([frame]))
    case Ask(q) => if c.active.Some? then c else c.(link := Asking(c.link, q), active := Some(q))
    case Poll =>
      if c.active.None? then c
      else
        match Go(H, c.link)
        case (Crashed, _) => c.(broken := true)
        case (Suspended, link) => c.(link := link)
        case (Completed, link) =>
          match Collect(link.session, c.active.value)
          case None => c.(broken := true)
          case Some((answer, s)) =>
            Caller(link.(session := s), None, c.calls + [(c.active.value, answer)], c.broken)
  }

  function ActAll(H: Octets -> Octets, c: Caller, actions: seq<Action>): Caller
    decreases actions
  {
    if actions == [] then c else ActAll(H, Act(H, c, actions[0]), actions[1..])
  }

  /** Whenever a frame arrives, all that arrived so far conforms to the trace so far. */
  predicate PeerConforms(H: Octets -> Octets, c: Caller, actions: seq<Action>)
    decreases actions
  {
    actions != [] ==>
      var c' := Act(H, c, actions[0]);
      && (actions[0].Arrive? ==>
            var books := EnterAll(H, EMPTY, c'.link.log);
            books.Some? && Conforming(H, books.value, c'.link.Pending()))
      && PeerConforms(H, c', actions[1..])
  }

  ghost predicate AsksFit(actions: seq<Action>) {
    forall a | a in actions && a.Ask? :: SizedQuery(a.query)
  }

  predicate RestInv(H: Octets -> Octets, e: Link, calls: seq<(Query, Answer)>) {
    && e.session == Session(None, None, None, Idle)
    && Settled(e.bytes)
    && EnterAll(H, EMPTY, e.log) == Some(Ledger(Idle, None, calls))
    && Conforming(H, Ledger(Idle, None, calls), e.Pending())
  }

  predicate CallerInv(H: Octets -> Octets, c: Caller) {
    && !c.broken
    && match c.active
       case None => RestInv(H, c.link, c.calls)
       case Some(q) => LinkInv(H, c.link, q, c.calls)
  }

  /** The answer a call collects is the one in the books. */
  lemma CollectTakes(H: Octets -> Octets, e: Link, q: Query, calls: seq<(Query, Answer)>)
    requires LinkInv(H, e, q, calls) && Answered(e.session, EnterAll(H, EMPTY, e.log).value, q, calls)
    ensures Collect(e.session, q).Some?
    ensures var (answer, s) := Collect(e.session, q).value; RestInv(H, e.(session := s), calls + [(q, answer)])
  {
    hide Conforming, EnterAll, Settled;
  }

  lemma PollKeeps(H: Octets -> Octets, c: Caller)
    requires CallerInv(H, c) && c.active.Some?
    ensures CallerInv(H, Act(H, c, Poll))
  {
    CallKeeps(H, c.link, c.active.value, c.calls);
    var (poll, link) := Go(H, c.link);
    if poll == Completed {
      CollectTakes(H, link, c.active.value, c.calls);
    }
  }

  lemma {:induction false} ActAllKeeps(H: Octets -> Octets, c: Caller, actions: seq<Action>)
    requires CallerInv(H, c) && PeerConforms(H, c, actions) && AsksFit(actions)
    ensures CallerInv(H, ActAll(H, c, actions))
    decreases actions
  {
    if actions != [] {
      assert actions[0] in actions;
      match actions[0] {
        case Arrive(frame) =>
        case Ask(q) =>
        case Poll =>
          if c.active.Some? {
            PollKeeps(H, c);
          }
      }
      ActAllKeeps(H, Act(H, c, actions[0]), actions[1..]);
    }
  }

  /** Over every sequence of calls, polls and arrivals against a conforming server, however its octets are cut:
      no call panics; the calls that returned, with what they returned, are exactly the questions of the trace
      with the answers the server gave to them; and between calls the session is Idle with nothing asked, kept
      or pending. */
  lemma {:induction false} EveryCallIsAnswered(H: Octets -> Octets, actions: seq<Action>)
    requires AsksFit(actions)
    requires PeerConforms(H, Caller(FRESH, None, [], false), actions)
    ensures var c := ActAll(H, Caller(FRESH, None, [], false), actions);
            var books := EnterAll(H, EMPTY, c.link.log);
            && !c.broken
            && books.Some?
            && (c.active.None? ==>
                  && books.value == Ledger(Idle, None, c.calls)
                  && c.link.session == Session(None, None, None, Idle)
                  && c.link.Pending() == [])
            && (c.active.Some? ==> c.calls <= books.value.answered)
  {
    var start := Caller(FRESH, None, [], false);
    assert start.link.Pending() == [];
    assert ScanMessages([]) == Scan([], 0, true);
    ActAllKeeps(H, start, actions);
    var c := ActAll(H, start, actions);
    if c.active.None? {
      SilentServer(H, Ledger(Idle, None, c.calls), c.link.Pending());
    }
  }

  // ---------------------------------------------------------------- calls as the methods make them

  /** Asking and letting the call go on is the call that the methods compute. */
  lemma CallsAreMethods(H: Octets -> Octets, c: Caller, q: Query)
    requires c.active == None
    ensures var (r, d) := (AskFor(H, c.link, q), Act(H, Act(H, c, Ask(q)), Poll));
            match r.poll
            case Completed =>
              r.answer.Some? && d == Caller(r.link, None, c.calls + [(q, r.answer.value)], c.broken)
            case Suspended => r.answer == None && d == Caller(r.link, Some(q), c.calls, c.broken)
            case Crashed => r.answer == None && d.broken
  {
    hide Go, Asking;
  }

  function QuestionOf(q: Query): (Message, State) {
    match q
    case ForIntersect(points) => (FindIntersect(points), Intersecting)
    case ForReply => (RequestNext, CanAwait)
  }

  /** A client at rest that asks sends one message, and waits for its server. */
  lemma AskingSends(H: Octets -> Octets, e: Link, calls: seq<(Query, Answer)>, q: Query)
    requires RestInv(H, e, calls) && SizedQuery(q)
    ensures EncodableMessage(ToValues(QuestionOf(q).0))
    ensures var (m, state) := QuestionOf(q);
            var payload := EncodeMessage(ToValues(m));
            var link := Endpoint(Session(Some(q), None, None, state), [], [], e.outbox + [payload], e.log + [Tx(m)]);
            AskFor(H, e, q) == CallResult(Suspended, None, link)
  {
    hide Conforming, EnterAll, Feed, ToValues, EncodableMessage, EncodeMessage;
    Encodes(QuestionOf(q).0);
    SilentServer(H, Ledger(Idle, None, calls), e.Pending());
    SendsOnce(H);
    var asked := Asking(e, q);
    var sent := Iterate(ProtocolWith(H), asked).next;
    assert e.bytes == [] && Concat(e.inbox) == [];
    EmptyFramesOnly(ProtocolWith(H), sent);
    assert Go(H, asked) == Go(H, sent);
  }

  /** find_intersect asks for exactly the points it was given. */
  lemma FindIntersectAsks(H: Octets -> Octets, e: Link, calls: seq<(Query, Answer)>, points: seq<Point>)
    requires RestInv(H, e, calls) && Sized(FindIntersect(points))
    ensures EncodableMessage(ToValues(FindIntersect(points)))
    ensures var r := AskFor(H, e, ForIntersect(points));
            && r.poll == Suspended && r.answer == None
            && r.link.log == e.log + [Tx(FindIntersect(points))]
            && r.link.outbox == e.outbox + [EncodeMessage(ToValues(FindIntersect(points)))]
  {
    hide RestInv, AskFor, ToValues, EncodableMessage, EncodeMessage;
    AskingSends(H, e, calls, ForIntersect(points));
  }

  /** And request_next asks for the next roll. */
  lemma RequestNextAsks(H: Octets -> Octets, e: Link, calls: seq<(Query, Answer)>)
    requires RestInv(H, e, calls)
    ensures EncodableMessage(ToValues(RequestNext))
    ensures var r := AskFor(H, e, ForReply);
            && r.poll == Suspended && r.answer == None
            && r.link.log == e.log + [Tx(RequestNext)]
            && r.link.outbox == e.outbox + [EncodeMessage(ToValues(RequestNext))]
  {
    hide RestInv, AskFor, ToValues, EncodableMessage, EncodeMessage;
    AskingSends(H, e, calls, ForReply);
  }

  // ---------------------------------------------------------------- any server

  /** A client that waits for the answer to q. */
  predicate Awaits(e: Link, q: Query) {
    && e.session == Session(Some(q), None, None, e.session.state) && Settled(e.bytes)
    && (e.session.state == Intersecting || e.session.state == CanAwait || e.session.state == MustReply)
  }

  /** The call ends with an answer if the answer is to its kind of question, and panics for want of one if not. */
  predicate EndsWith(poll: Poll, s: Session, q: Query, answer: Answer) {
    && poll == Completed
    && Collect(s, q) == if answer.Intersected? <==> q.ForIntersect? then Some((answer, FRESH.session)) else None
  }

  /** What a call makes of one message of any server, conforming or not, in any encoding and any cut. */
  lemma MessageDecides(H: Octets -> Octets, e: Link, q: Query, fields: Fields)
    requires Awaits(e, q) && OneMessage(e.Pending(), fields)
    ensures var (poll, end) := Go(H, e);
            var s := end.session;
            match FromValues(fields)
            case None => poll == Crashed
            case Some(RequestNext) => poll == Suspended && s == e.session.(state := CanAwait)
            case Some(AwaitReply) => poll == Suspended && s == e.session.(state := MustReply)
            case Some(RollForward(header, tip)) =>
              (match Unwrap(H, header)
               case None => poll == Crashed
               case Some(h) => EndsWith(poll, s, q, Replied(Forward(h, tip))))
            case Some(RollBackward(point, tip)) => EndsWith(poll, s, q, Replied(Backward(point, tip)))
            case Some(IntersectFound(point, tip)) => EndsWith(poll, s, q, Intersected(Found(point, tip)))
            case Some(IntersectNotFound(tip)) => EndsWith(poll, s, q, Intersected(NotFound(tip)))
            case Some(Finished) => poll == Completed && s.state == State.Done && Collect(s, q) == None
            case Some(FindIntersect(_)) => poll == Crashed
  {
    hide FromValues, Unwrap, OneMessage, Settled;
    SendsOnce(H);
    OneMessageDecides(ProtocolWith(H), e, fields);
  }
}

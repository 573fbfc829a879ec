/** The Chain-Sync client: its session, and the calls that ask one thing at a time. The hash of headers is a
    parameter. */
module ChainSyncClient {
  import opened Bytes
  import opened MessageStream
  import opened Driver
  import opened Values
  import opened Headers
  import opened ChainSync

  datatype Query = ForIntersect(points: seq<Point>) | ForReply

  datatype Intersect = Found(point: Point, tip: Tip) | NotFound(tip: Tip)

  datatype Reply = Forward(header: BlockHeader, tip: Tip) | Backward(point: Point, tip: Tip)

  datatype Session = Session(
    query: Option<Query>,
    intersect: Option<Intersect>,
    reply: Option<Reply>,
    state: State)

  function AgencyOf(s: Session): Agency {
    if s.query.None? then Nobody
    else
      match s.state
      case Idle => Client
      case Intersecting => Server
      case CanAwait => Server
      case MustReply => Server
      case Done => Nobody
  }

  function Send(s: Session): Option<(Session, Message)> {
    if s.state != Idle || s.query.None? then None
    else
      match s.query.value
      case ForIntersect(points) => Some((s.(state := Intersecting), FindIntersect(points)))
      case ForReply => Some((s.(state := CanAwait), RequestNext))
  }

  function Recv(H: Octets -> Octets, s: Session, m: Message): Option<Session> {
    match m
    case RequestNext => Some(s.(state := CanAwait))
    case AwaitReply => Some(s.(state := MustReply))
    case RollForward(header, tip) =>
      (match Unwrap(H, header)
       case None => None
       case Some(h) => Some(s.(reply := Some(Forward(h, tip)), query := None, state := Idle)))
    case RollBackward(point, tip) => Some(s.(reply := Some(Backward(point, tip)), query := None, state := Idle))
    case IntersectFound(point, tip) => Some(s.(intersect := Some(Found(point, tip)), query := None, state := Idle))
    case IntersectNotFound(tip) => Some(s.(intersect := Some(NotFound(tip)), query := None, state := Idle))
    case Finished => Some(s.(state := State.Done))
    case FindIntersect(_) => None
  }

  function ProtocolWith(H: Octets -> Octets): Protocol<Session, Message> {
    Protocol(
      (s: Session) => Client,
      (s: Session) => AgencyOf(s),
      (s: Session) => Send(s),
      (s: Session, m: Message) => Recv(H, s, m),
      (fields: Fields) => FromValues(fields),
      (m: Message) => Some(ToValues(m)))
  }

  type Link = Endpoint<Session, Message>

  const FRESH: Link := Endpoint(Session(None, None, None, Idle), [], [], [], [])

  lemma SendsOnce(H: Octets -> Octets)
    ensures Alternates(ProtocolWith(H))
  {
  }

  function Go(H: Octets -> Octets, e: Link): (Poll, Link) {
    SendsOnce(H);
    Drive(ProtocolWith(H), e)
  }

  function Asking(e: Link, q: Query): Link {
    e.(session := e.session.(query := Some(q)))
  }

  datatype Answer = Intersected(intersect: Intersect) | Replied(reply: Reply)

  /** The end of a call takes the answer to its question out of the session; None is a failed unwrap. */
  function Collect(s: Session, q: Query): Option<(Answer, Session)> {
    match q
    case ForIntersect(_) =>
      if s.intersect.None? then None else Some((Intersected(s.intersect.value), s.(intersect := None)))
    case ForReply =>
      if s.reply.None? then None else Some((Replied(s.reply.value), s.(reply := None)))
  }

  datatype CallResult = CallResult(poll: Poll, answer: Option<Answer>, link: Link)

  /** A call up to its end, a wait for the network or a panic. */
  function AskFor(H: Octets -> Octets, e: Link, q: Query): CallResult {
    var (poll, e') := Go(H, Asking(e, q));
    if poll != Completed then CallResult(poll, None, e')
    else
      match Collect(e'.session, q)
      case None => CallResult(Crashed, None, e')
      case Some((answer, s)) => CallResult(Completed, Some(answer), e'.(session := s))
  }

  /** A client as its callers see it. */
  class Follower {
    const driver: MiniProtocol<Session, Message>
    const H: Octets -> Octets

    constructor (H: Octets -> Octets)
      ensures this.H == H && driver.protocol == ProtocolWith(H) && fresh(driver) && driver.View() == FRESH
    {
      this.H := H;
      driver := new MiniProtocol(ProtocolWith(H), Session(None, None, None, Idle));
    }

    method FindIntersect(points: seq<Point>) returns (poll: Poll, answer: Option<Intersect>)
      requires driver.protocol == ProtocolWith(H)
      modifies driver
      ensures var r := AskFor(H, old(driver.View()), ForIntersect(points));
              && poll == r.poll
              && r.answer == (if answer.Some? then Some(Intersected(answer.value)) else None)
              && (poll != Crashed ==> driver.View() == r.link)
    {
      SendsOnce(H);
      driver.session := driver.session.(query := Some(ForIntersect(points)));
      poll := driver.Execute();
      if poll != Completed {
        return poll, None;
      }
      answer := driver.session.intersect;
      if answer.None? {
        return Crashed, None;
      }
      driver.session := driver.session.(intersect := None);
    }

    method RequestNext() returns (poll: Poll, answer: Option<Reply>)
      requires driver.protocol == ProtocolWith(H)
      modifies driver
      ensures var r := AskFor(H, old(driver.View()), ForReply);
              && poll == r.poll
              && r.answer == (if answer.Some? then Some(Replied(answer.value)) else None)
              && (poll != Crashed ==> driver.View() == r.link)
    {
      SendsOnce(H);
      driver.session := driver.session.(query := Some(ForReply));
      poll := driver.Execute();
      if poll != Completed {
        return poll, None;
      }
      answer := driver.session.reply;
      if answer.None? {
        return Crashed, None;
      }
      driver.session := driver.session.(reply := None);
    }
  }
}

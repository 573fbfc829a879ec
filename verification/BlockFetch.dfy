/** The Block-Fetch mini-protocol: its messages, the client's session and the calls of its interface. */
module BlockFetch {
  import opened Bytes
  import opened Cbor
  import opened MessageStream
  import opened Driver
  import opened Values

  datatype State = Idle | Busy | Streaming | Done

  datatype Message =
    | RequestRange(first: Point, last: Point)
    | ClientDone
    | StartBatch
    | NoBlocks
    | Block(body: Octets)
    | BatchDone

  function ToValues(m: Message): Fields {
    match m
    case RequestRange(first, last) => [Integer(0), Array(PointToFields(first)), Array(PointToFields(last))]
    case ClientDone => [Integer(1)]
    case StartBatch => [Integer(2)]
    case NoBlocks => [Integer(3)]
    case Block(body) => [Integer(4), Value.Bytes(body)]
    case BatchDone => [Integer(5)]
  }

  /** What a list of fields means, if anything: the shapes a message can have. */
  function FromValues(fields: Fields): Option<Message> {
    match IntegerAt(fields)
    case None => None
    case Some(tag) =>
      if tag == 0 && |fields| == 3 && fields[1].Array? && fields[2].Array? then
        match (PointFromFields(fields[1].items), PointFromFields(fields[2].items))
        case (Some(first), Some(last)) => Some(RequestRange(first, last))
        case _ => None
      else if tag == 1 && |fields| == 1 then Some(ClientDone)
      else if tag == 2 && |fields| == 1 then Some(StartBatch)
      else if tag == 3 && |fields| == 1 then Some(NoBlocks)
      else if tag == 4 && |fields| == 2 && fields[1].Bytes? then Some(Block(fields[1].octets))
      else if tag == 5 && |fields| == 1 then Some(BatchDone)
      else None
  }

  /** Reads a message field by field; an error and the panic on an unknown tag are both None. */
  method FromIter(fields: Fields) returns (r: Option<Message>)
    ensures r == FromValues(fields)
  {
    var cursor := new Cursor(fields);
    var tag := cursor.Integer();
    if tag.None? { return None; }
    var message: Message;
    if tag.value == 0 {
      var items := cursor.Items();
      if items.None? { return None; }
      var first := ReadPoint(items.value);
      if first.None? { return None; }
      items := cursor.Items();
      if items.None? { return None; }
      var last := ReadPoint(items.value);
      if last.None? { return None; }
      message := RequestRange(first.value, last.value);
    } else if tag.value == 1 {
      message := ClientDone;
    } else if tag.value == 2 {
      message := StartBatch;
    } else if tag.value == 3 {
      message := NoBlocks;
    } else if tag.value == 4 {
      var body := cursor.ByteString();
      if body.None? { return None; }
      message := Block(body.value);
    } else if tag.value == 5 {
      message := BatchDone;
    } else {
      return None;
    }
    var ended := cursor.End();
    return if ended then Some(message) else None;
  }

  /** The slots of a range request fit 64 bits, so that reading them loses nothing. */
  predicate SlotsFit(fields: Fields)
    requires FromValues(fields).Some?
  {
    fields[0].number == 0 ==>
      && 0 <= fields[1].items[0].number < TWO64
      && 0 <= fields[2].items[0].number < TWO64
  }

  /** The codec is exact both ways: every message comes back from its fields, and accepted fields come back
      from their message precisely when no slot was truncated. */
  lemma CodecExact(m: Message, fields: Fields)
    ensures FromValues(ToValues(m)) == Some(m)
    ensures FromValues(fields) == Some(m) ==> (ToValues(m) == fields <==> SlotsFit(fields))
  {
    if m.RequestRange? {
      PointExact(m.first, []);
      PointExact(m.last, []);
    }
    if FromValues(fields) == Some(m) {
      if m.RequestRange? {
        PointExact(m.first, fields[1].items);
        PointExact(m.last, fields[2].items);
        assert fields == [fields[0], fields[1], fields[2]];
      } else if m.Block? {
        assert fields == [fields[0], fields[1]];
      } else {
        assert fields == [fields[0]];
      }
    }
  }

  /** Accepted fields that do not come back: a slot of -1 is read as the largest one. */
  lemma DecodingTruncates()
    ensures var fields := [Integer(0), Array([Integer(-1), Value.Bytes([])]), Array([Integer(0), Value.Bytes([])])];
            var m := RequestRange(Point(TWO64 - 1, []), Point(0, []));
            FromValues(fields) == Some(m) && ToValues(m) != fields
  {
  }

  /** The byte strings of a message have lengths that CBOR can write. */
  predicate Sized(m: Message) {
    match m
    case RequestRange(first, last) => |first.hash| < TWO64 && |last.hash| < TWO64
    case Block(body) => |body| < TWO64
    case _ => true
  }

  lemma Encodes(m: Message)
    requires Sized(m)
    ensures EncodableMessage(ToValues(m))
  {
    match m
    case RequestRange(first, last) =>
      PointEncodable(first);
      PointEncodable(last);
      assert forall x | x in ToValues(m) :: Encodable(x);
    case Block(body) => assert forall x | x in ToValues(m) :: Encodable(x);
    case _ => assert forall x | x in ToValues(m) :: Encodable(x);
  }

  // ---------------------------------------------------------------- the client

  datatype Session = Session(
    first: Point,
    last: Point,
    state: State,
    result: seq<Octets>,
    running: bool,
    done: bool)

  function AgencyOf(s: Session): Agency {
    if !s.running then Nobody
    else
      match s.state
      case Idle => Client
      case Busy => Server
      case Streaming => Server
      case Done => Nobody
  }

  function Send(s: Session): Option<(Session, Message)> {
    if s.state != Idle then None
    else if s.done then Some((s.(state := State.Done), ClientDone))
    else Some((s.(state := Busy), RequestRange(s.first, s.last)))
  }

  /** Running may be false here: several messages can share a frame. */
  function Recv(s: Session, m: Message): Option<Session> {
    match (s.state, m)
    case (Busy, NoBlocks) => Some(s.(running := false, state := Idle))
    case (Busy, StartBatch) => Some(s.(state := Streaming))
    case (Streaming, Block(body)) => Some(s.(running := false, result := s.result + [body]))
    case (Streaming, BatchDone) => Some(s.(running := false, state := Idle))
    case _ => None
  }

  const PROTOCOL: Protocol<Session, Message> := Protocol(
    (s: Session) => Client,
    (s: Session) => AgencyOf(s),
    (s: Session) => Send(s),
    (s: Session, m: Message) => Recv(s, m),
    (fields: Fields) => FromValues(fields),
    (m: Message) => Some(ToValues(m)))

  type Link = Endpoint<Session, Message>

  lemma SendsOnce()
    ensures Alternates(PROTOCOL)
  {
  }

  /** Both run and a waiting next let the driver go on. */
  function Resumed(e: Link): Link {
    e.(session := e.session.(running := true))
  }

  function Closing(e: Link): Link {
    e.(session := e.session.(running := true, done := true))
  }

  function Fresh(first: Point, last: Point): Link {
    Endpoint(Session(first, last, Idle, [], false, false), [], [], [], [])
  }

  function Go(e: Link): (Poll, Link) {
    SendsOnce();
    Drive(PROTOCOL, e)
  }

  datatype Answer = Answer(poll: Poll, block: Option<Octets>, link: Link)

  /** The end of next: the oldest block not yet handed out. */
  function Take(e: Link): Answer {
    if e.session.result == [] then Answer(Completed, None, e)
    else Answer(Completed, Some(e.session.result[0]), e.(session := e.session.(result := e.session.result[1..])))
  }

  function NextCall(e: Link): Answer {
    if e.session.result != [] || e.session.state == Idle then Take(e)
    else if e.session.state != Streaming then Answer(Crashed, None, e)
    else
      var (poll, e') := Go(Resumed(e));
      if poll == Completed then Take(e') else Answer(poll, None, e')
  }

  /** A client as its callers see it. */
  class Fetcher {
    const driver: MiniProtocol<Session, Message>

    ghost predicate Valid() {
      driver.protocol == PROTOCOL
    }

    constructor (first: Point, last: Point)
      ensures Valid() && fresh(driver) && driver.View() == Fresh(first, last)
    {
      driver := new MiniProtocol(PROTOCOL, Session(first, last, Idle, [], false, false));
    }

    method Run() returns (poll: Poll)
      requires Valid()
      modifies driver
      ensures poll == Go(Resumed(old(driver.View()))).0
      ensures poll != Crashed ==> driver.View() == Go(Resumed(old(driver.View()))).1
    {
      SendsOnce();
      driver.session := driver.session.(running := true);
      poll := driver.Execute();
    }

    method Next() returns (poll: Poll, block: Option<Octets>)
      requires Valid()
      modifies driver
      ensures poll == NextCall(old(driver.View())).poll && block == NextCall(old(driver.View())).block
      ensures poll != Crashed ==> driver.View() == NextCall(old(driver.View())).link
    {
      SendsOnce();
      if driver.session.result == [] {
        match driver.session.state {
          case Streaming =>
            driver.session := driver.session.(running := true);
            poll := driver.Execute();
            if poll != Completed {
              return poll, None;
            }
          case Idle => return Completed, None;
          case _ => return Crashed, None;
        }
      }
      if driver.session.result == [] {
        return Completed, None;
      }
      block := Some(driver.session.result[0]);
      driver.session := driver.session.(result := driver.session.result[1..]);
      return Completed, block;
    }

    method Finish() returns (poll: Poll)
      requires Valid()
      modifies driver
      ensures poll == Go(Closing(old(driver.View()))).0
      ensures poll != Crashed ==> driver.View() == Go(Closing(old(driver.View()))).1
    {
      SendsOnce();
      driver.session := driver.session.(running := true, done := true);
      poll := driver.Execute();
    }
  }
}

/** The handshake mini-protocol: its messages, and the session either side runs. */
module Handshake {
  import opened Bytes
  import opened Cbor
  import opened MessageStream
  import opened Driver
  import opened Values
  import opened Versions

  datatype State = Propose | Confirm | Done

  datatype Message = ProposeVersions(offers: seq<Offer>) | AcceptVersion(version: Version, magic: U32) | Refuse

  /** "Refused." in UTF-8. */
  const REFUSED: Octets := [0x52, 0x65, 0x66, 0x75, 0x73, 0x65, 0x64, 0x2e]

  /** None is a failed unwrap: a version that cannot be proposed or has no 16-bit number. */
  function ToValues(m: Message): Option<Fields> {
    match m
    case ProposeVersions(offers) =>
      (match ToMap(offers)
       case None => None
       case Some(entries) => Some([Integer(0), Map(entries)]))
    case AcceptVersion(version, magic) =>
      (match ToU16(version)
       case None => None
       case Some(n) => Some([Integer(1), Integer(n), Array([Integer(magic), Bool(false)])]))
    case Refuse => Some([Integer(1), Array([Integer(2), Integer(0), Text(REFUSED)])])
  }

  /** Fields after those of the shape are ignored. */
  function FromValues(fields: Fields): Option<Message> {
    match IntegerAt(fields)
    case None => None
    case Some(tag) =>
      if tag == 0 && |fields| >= 2 && fields[1].Map? then
        match FromMap(fields[1].keysAndValues)
        case None => None
        case Some(offers) => Some(ProposeVersions(offers))
      else if tag == 1 && |fields| >= 3 && fields[1].Integer? && fields[2].Array? then
        match (IntegerAt(fields[2].items), BoolAt(Tail(fields[2].items)))
        case (Some(magic), Some(false)) => Some(AcceptVersion(FromU16(AsU16(fields[1].number)), AsU32(magic)))
        case _ => None
      else if tag == 2 && |fields| >= 2 && fields[1].Array? then Some(Refuse)
      else None
  }

  /** The magic and a flag that must be false; what follows is ignored. */
  method ReadMagic(items: Fields) returns (r: Option<int>)
    ensures r == if BoolAt(Tail(items)) == Some(false) then IntegerAt(items) else None
  {
    var cursor := new Cursor(items);
    var magic := cursor.Integer();
    if magic.None? { return None; }
    var flag := cursor.Boolean();
    if flag.None? { return None; }
    return if flag.value then None else magic;
  }

  method FromIter(fields: Fields) returns (r: Option<Message>)
    ensures r == FromValues(fields)
  {
    hide FromMap, FromU16;
    var cursor := new Cursor(fields);
    var tag := cursor.Integer();
    if tag.None? { return None; }
    if tag.value == 0 {
      var entries := cursor.Entries();
      if entries.None? { return None; }
      var offers := FromMap(entries.value);
      return if offers.None? then None else Some(ProposeVersions(offers.value));
    } else if tag.value == 1 {
      var number := cursor.Integer();
      if number.None? { return None; }
      var items := cursor.Items();
      if items.None? { return None; }
      var magic := ReadMagic(items.value);
      if magic.None? { return None; }
      return Some(AcceptVersion(FromU16(AsU16(number.value)), AsU32(magic.value)));
    } else if tag.value == 2 {
      var reason := cursor.Items();
      if reason.None? { return None; }
      return Some(Refuse);
    }
    return None;
  }

  /** An acceptance comes back exactly if the number of its version is below 0x8000, as all are that a builder
      or FromU16 makes; a refusal never does, because it is written with the tag of an acceptance. */
  lemma AcceptanceRoundTrip(v: Version, magic: U32)
    ensures ToValues(AcceptVersion(v, magic)).Some? <==> ToU16(v).Some?
    ensures ToU16(v).Some? ==>
              var fields := ToValues(AcceptVersion(v, magic)).value;
              && EncodableMessage(fields)
              && (FromValues(fields) == Some(AcceptVersion(v, magic)) <==> v.number < 0x8000)
    ensures FromValues(ToValues(Refuse).value) == None
  {
    if ToU16(v).Some? {
      NumberExact(v, 0);
      var items := [Integer(magic), Bool(false)];
      var fields := ToValues(AcceptVersion(v, magic)).value;
      assert fields[2].items == items && Tail(items)[0] == Bool(false);
      assert forall x | x in items :: Encodable(x);
      assert forall x | x in fields :: Encodable(x);
    }
  }

  /** An acceptance that is understood is the one that would be written for it, exactly if no cast changed anything
      in it and no further field or parameter was ignored. */
  lemma AcceptanceExact(fields: Fields, v: Version, magic: U32)
    requires FromValues(fields) == Some(AcceptVersion(v, magic))
    ensures ToValues(AcceptVersion(v, magic)) == Some(fields) <==>
            && |fields| == 3 && 0 <= fields[1].number < 0x1_0000
            && |fields[2].items| == 2 && 0 <= fields[2].items[0].number < 0x1_0000_0000
  {
    hide FromMap;
    NumberExact(v, AsU16(fields[1].number));
    var items := fields[2].items;
    if |items| == 2 {
      assert items == [items[0], items[1]];
    }
    if |fields| == 3 {
      assert fields == [fields[0], fields[1], fields[2]];
    }
  }

  /** A proposal of supported versions is always written and understood, as the sorted list it stands for. */
  lemma ProposalArrives(offers: seq<Offer>) returns (back: seq<Offer>)
    requires AllSupported(offers)
    ensures ToValues(ProposeVersions(offers)).Some?
    ensures var fields := ToValues(ProposeVersions(offers)).value;
            EncodableMessage(fields) && FromValues(fields) == Some(ProposeVersions(back))
    ensures ByNumber(back) && (forall o :: o in back <==> LastOffer(offers, o))
    ensures back == offers <==> ByNumber(offers)
  {
    back := ProposalRoundTrip(offers);
    MapEncodable(offers);
    var fields := ToValues(ProposeVersions(offers)).value;
    assert forall x | x in fields :: Encodable(x);
  }

  // ---------------------------------------------------------------- a session

  datatype Session = Session(
    role: Agency,
    versions: seq<Version>,
    magic: U32,
    state: State,
    version: Option<Version>)

  function AgencyOf(s: Session): Agency {
    match s.state
    case Propose => Client
    case Confirm => Server
    case Done => Nobody
  }

  /** Every version offered with the same magic. */
  function OffersOf(versions: seq<Version>, magic: U32): (offers: seq<Offer>)
    ensures |offers| == |versions| && forall i | 0 <= i < |versions| :: offers[i] == Offer(versions[i], magic)
  {
    seq(|versions|, i requires 0 <= i < |versions| => Offer(versions[i], magic))
  }

  function Send(s: Session): Option<(Session, Message)> {
    match s.state
    case Propose => Some((s.(state := Confirm), ProposeVersions(OffersOf(s.versions, s.magic))))
    case Confirm =>
      if s.versions == [] then None
      else
        var version := s.versions[|s.versions| - 1];
        Some((s.(state := State.Done, version := Some(version)), AcceptVersion(version, s.magic)))
    case Done => None
  }

  /** The first of the versions that equals the accepted one. */
  function Find(versions: seq<Version>, v: Version): Option<Version> {
    if v in versions then Some(v) else None
  }

  /** The server does not look at the proposal; the client checks the magic after it has the version. */
  function Recv(s: Session, m: Message): Option<Session> {
    match s.state
    case Propose => Some(s.(state := Confirm))
    case Confirm =>
      (match m
       case AcceptVersion(version, magic) =>
         if magic != s.magic then None
         else Some(s.(state := State.Done, version := Find(s.versions, version)))
       case Refuse => Some(s.(state := State.Done))
       case ProposeVersions(_) => None)
    case Done => None
  }

  const PROTOCOL: Protocol<Session, Message> := Protocol(
    (s: Session) => s.role,
    (s: Session) => AgencyOf(s),
    (s: Session) => Send(s),
    (s: Session, m: Message) => Recv(s, m),
    (fields: Fields) => FromValues(fields),
    (m: Message) => ToValues(m))

  type Peer = Endpoint<Session, Message>

  function Fresh(role: Agency, versions: seq<Version>, magic: U32): Peer {
    Endpoint(Session(role, versions, magic, Propose, None), [], [], [], [])
  }

  lemma SendsOnce()
    ensures Alternates(PROTOCOL)
  {
  }

  function Go(e: Peer): (Poll, Peer) {
    SendsOnce();
    Drive(PROTOCOL, e)
  }

  /** What a completed negotiation returns: the version with the network magic, or an error. */
  function Agreed(s: Session): Option<Offer> {
    match s.version case None => None case Some(v) => Some(Offer(v, s.magic))
  }

  // ---------------------------------------------------------------- any server

  /** A client that has proposed and waits. */
  predicate Proposed(e: Peer) {
    e.session.role == Client && e.session.state == Confirm && e.session.version == None && Settled(e.bytes)
  }

  /** What negotiate makes of the one message a server answers, in any encoding and any cut. */
  lemma AnswerDecides(e: Peer, fields: Fields)
    requires Proposed(e) && OneMessage(e.Pending(), fields)
    ensures var (poll, end) := Go(e);
            match FromValues(fields)
            case Some(Refuse) => poll == Completed && end.session.state == State.Done && Agreed(end.session) == None
            case Some(AcceptVersion(v, magic)) =>
              if magic != e.session.magic then poll == Crashed
              else
                && poll == Completed && end.session.state == State.Done
                && Agreed(end.session) == if v in e.session.versions then Some(Offer(v, magic)) else None
            case _ => poll == Crashed
  {
    hide FromValues;
    SendsOnce();
    OneMessageDecides(PROTOCOL, e, fields);
  }

  /** A refusal, whatever its reason and whatever follows it, makes negotiate fail: no version. */
  lemma RefusalFails(e: Peer, fields: Fields)
    requires Proposed(e) && OneMessage(e.Pending(), fields)
    requires |fields| >= 2 && fields[0] == Integer(2) && fields[1].Array?
    ensures Go(e).0 == Completed && Go(e).1.session.state == State.Done && Agreed(Go(e).1.session) == None
  {
    AnswerDecides(e, fields);
  }

  /** An acceptance of any server: negotiate returns exactly the client's version of that number, fails if it
      has none, and panics on another magic or a flag that is set. */
  lemma AcceptanceDecides(e: Peer, number: U16, magic: U32, flag: bool)
    requires Proposed(e)
    requires OneMessage(e.Pending(), [Integer(1), Integer(number), Array([Integer(magic), Bool(flag)])])
    ensures var (poll, end) := Go(e);
            var v := if number < 0x8000 then N2N(number) else C2N(number - 0x8000);
            if flag || magic != e.session.magic then poll == Crashed
            else
              && poll == Completed
              && Agreed(end.session) == if v in e.session.versions then Some(Offer(v, magic)) else None
  {
    var fields := [Integer(1), Integer(number), Array([Integer(magic), Bool(flag)])];
    var items := fields[2].items;
    assert items[0] == Integer(magic) && Tail(items)[0] == Bool(flag);
    AnswerDecides(e, fields);
  }

  /** The refusal this library writes is not one: a client panics on it. */
  lemma OwnRefusalPanics(e: Peer)
    requires Proposed(e) && OneMessage(e.Pending(), ToValues(Refuse).value)
    ensures Go(e).0 == Crashed
  {
    AcceptanceRoundTrip(N2N(0), 0);
    AnswerDecides(e, ToValues(Refuse).value);
  }

  lemma {:induction false} DeliverTwo(s: Session, messages: seq<Fields>)
    requires s.state == Confirm && |messages| >= 2
    ensures Deliver(PROTOCOL, s, messages) == None
  {
    hide FromValues;
    match FromValues(messages[0])
    case None =>
    case Some(m) =>
      match Recv(s, m)
      case None =>
      case Some(s') => assert Deliver(PROTOCOL, s', messages[1..]) == None;
  }

  /** A second message in the frame that ends the handshake is a panic, as any message after the end is. */
  lemma {:induction false} NothingAfterTheEnd(s: Session, data: Octets)
    requires s.state == Confirm && |ScanMessages(data).messages| >= 2
    ensures Feed(PROTOCOL, s, data) == None
  {
    hide ScanMessages, Deliver, Feed;
    FeedInTwoPhases(PROTOCOL, s, data);
    DeliverTwo(s, ScanMessages(data).messages);
  }

  /** Either side as its callers see it. */
  class Negotiator {
    const driver: MiniProtocol<Session, Message>

    constructor (role: Agency, versions: seq<Version>, magic: U32)
      ensures driver.protocol == PROTOCOL && fresh(driver) && driver.View() == Fresh(role, versions, magic)
    {
      driver := new MiniProtocol(PROTOCOL, Session(role, versions, magic, Propose, None));
    }

    method Negotiate() returns (poll: Poll, agreed: Option<Offer>)
      requires driver.protocol == PROTOCOL
      modifies driver
      ensures poll == Go(old(driver.View())).0
      ensures poll != Crashed ==> driver.View() == Go(old(driver.View())).1
      ensures agreed == if poll == Completed then Agreed(Go(old(driver.View())).1.session) else None
    {
      SendsOnce();
      poll := driver.Execute();
      if poll != Completed || driver.session.version.None? {
        return poll, None;
      }
      agreed := Some(Offer(driver.session.version.value, driver.session.magic));
    }
  }
}

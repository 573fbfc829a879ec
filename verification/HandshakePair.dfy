/** A handshake client and a handshake server with the octets between them: every reachable state, whatever
    the interleaving and however the octets are cut into frames. */
module HandshakePair {
  import opened Bytes
  import opened MessageStream
  import opened Driver
  import opened Values
  import opened Versions
  import opened Handshake

  /** What either side was built with. */
  datatype Setup = Setup(mine: seq<Version>, magic: U32, theirs: seq<Version>, theirMagic: U32)

  /** Both sides, the octets under way to each, and whether they have panicked. */
  datatype Pairing = Pairing(
    client: Peer,
    server: Peer,
    toServer: Octets,
    toClient: Octets,
    clientCrashed: bool,
    serverCrashed: bool)

  /** A round of either driver loop, or the first octets under way arriving as a frame, possibly an empty one. */
  datatype Move = ClientRound | ServerRound | ToServer(octets: nat) | ToClient(octets: nat)

  function Start(u: Setup): Pairing {
    Pairing(Fresh(Client, u.mine, u.magic), Fresh(Server, u.theirs, u.theirMagic), [], [], false, false)
  }

  /** The octets a round has handed to the connection. */
  function Handed(e: Peer, next: Peer): Octets {
    if |e.outbox| <= |next.outbox| then Concat(next.outbox[|e.outbox|..]) else []
  }

  function Step(p: Pairing, move: Move): Pairing {
    match move
    case ClientRound =>
      if p.clientCrashed then p
      else
        (match Iterate(PROTOCOL, p.client)
         case Stepped(next) => p.(client := next, toServer := p.toServer + Handed(p.client, next))
         case Panicked => p.(clientCrashed := true)
         case _ => p)
    case ServerRound =>
      if p.serverCrashed then p
      else
        (match Iterate(PROTOCOL, p.server)
         case Stepped(next) => p.(server := next, toClient := p.toClient + Handed(p.server, next))
         case Panicked => p.(serverCrashed := true)
         case _ => p)
    case ToServer(n) =>
      if n > |p.toServer| then p
      else p.(server := p.server.Arrive([p.toServer[..n]]), toServer := p.toServer[n..])
    case ToClient(n) =>
      if n > |p.toClient| then p
      else p.(client := p.client.Arrive([p.toClient[..n]]), toClient := p.toClient[n..])
  }

  function Steps(p: Pairing, moves: seq<Move>): Pairing
    decreases moves
  {
    if moves == [] then p else Steps(Step(p, moves[0]), moves[1..])
  }

  /** All versions are in the range that can be encoded. */
  ghost predicate Usual(u: Setup) {
    (forall v | v in u.mine :: Supported(v)) && (forall v | v in u.theirs :: Supported(v))
  }

  // ---------------------------------------------------------------- the two messages

  function Last(u: Setup): Version
    requires u.theirs != []
  {
    u.theirs[|u.theirs| - 1]
  }

  function Proposal(u: Setup): Message {
    ProposeVersions(OffersOf(u.mine, u.magic))
  }

  function Acceptance(u: Setup): Message
    requires u.theirs != []
  {
    AcceptVersion(Last(u), u.theirMagic)
  }

  /** A message that can be written; what its reader makes of it. */
  predicate Carries(m: Message, fields: Fields, read: Message) {
    ToValues(m) == Some(fields) && EncodableMessage(fields) && FromValues(fields) == Some(read)
  }

  lemma ProposalCarries(u: Setup) returns (fields: Fields, read: Message)
    requires Usual(u)
    ensures Carries(Proposal(u), fields, read)
  {
    var offers := OffersOf(u.mine, u.magic);
    assert AllSupported(offers);
    var back := ProposalArrives(offers);
    fields := ToValues(Proposal(u)).value;
    read := ProposeVersions(back);
  }

  lemma AcceptanceCarries(u: Setup) returns (fields: Fields)
    requires Usual(u) && u.theirs != []
    ensures Carries(Acceptance(u), fields, Acceptance(u))
  {
    assert Supported(Last(u));
    AcceptanceRoundTrip(Last(u), u.theirMagic);
    fields := ToValues(Acceptance(u)).value;
  }

  function ProposalOctets(u: Setup): Octets {
    PROTOCOL.ToBytes(Proposal(u)).GetOr([])
  }

  function AcceptanceOctets(u: Setup): Octets {
    if u.theirs == [] then [] else PROTOCOL.ToBytes(Acceptance(u)).GetOr([])
  }

  /** A session that is fed the first octets of one message, or all of it. */
  lemma {:induction false} FeedOneMessage(s: Session, m: Message, fields: Fields, read: Message, data: Octets)
    requires Carries(m, fields, read) && data <= EncodeMessage(fields)
    ensures Feed(PROTOCOL, s, data) ==
            if data != EncodeMessage(fields) then Some(Fed(s, [], data))
            else match Recv(s, read) case None => None case Some(s') => Some(Fed(s', [read], []))
  {
    ScanOneMessage(fields, data);
    FeedInTwoPhases(PROTOCOL, s, data);
    if data == EncodeMessage(fields) {
      DeliverOne(PROTOCOL, s, fields);
      assert data[|data|..] == [];
    } else {
      assert data[0..] == data;
    }
  }

  // ---------------------------------------------------------------- the invariant

  /** How far a handshake has come. */
  datatype Phase = Opening | Proposing | Choosing | Confirming | Closed | ServerFailed | ClientFailed

  /** A message on its way to e, of which wire has not arrived and not all has been read. */
  predicate Coming(e: Peer, wire: Octets, message: Octets) {
    e.Pending() + wire == message && e.bytes != message
  }

  predicate Quiet(e: Peer, wire: Octets) {
    e.Pending() == [] && wire == []
  }

  function Mine(u: Setup, state: State, version: Option<Version>): Session {
    Session(Client, u.mine, u.magic, state, version)
  }

  function Theirs(u: Setup, state: State, version: Option<Version>): Session {
    Session(Server, u.theirs, u.theirMagic, state, version)
  }

  predicate In(u: Setup, p: Pairing, phase: Phase) {
    && p.serverCrashed == (phase == ServerFailed)
    && p.clientCrashed == (phase == ClientFailed)
    && match phase
       case Opening =>
         && p.client.session == Mine(u, Propose, None) && p.server.session == Theirs(u, Propose, None)
         && Quiet(p.client, p.toClient) && Quiet(p.server, p.toServer)
       case Proposing =>
         && p.client.session == Mine(u, Confirm, None) && p.server.session == Theirs(u, Propose, None)
         && Quiet(p.client, p.toClient) && Coming(p.server, p.toServer, ProposalOctets(u))
       case Choosing =>
         && p.client.session == Mine(u, Confirm, None) && p.server.session == Theirs(u, Confirm, None)
         && Quiet(p.client, p.toClient) && Quiet(p.server, p.toServer)
       case ServerFailed =>
         && u.theirs == []
         && p.client.session == Mine(u, Confirm, None) && p.server.session == Theirs(u, Confirm, None)
         && Quiet(p.client, p.toClient) && Quiet(p.server, p.toServer)
       case Confirming =>
         && u.theirs != []
         && p.client.session == Mine(u, Confirm, None) && p.server.session == Theirs(u, State.Done, Some(Last(u)))
         && Coming(p.client, p.toClient, AcceptanceOctets(u)) && Quiet(p.server, p.toServer)
       case Closed =>
         && u.theirs != [] && u.magic == u.theirMagic
         && p.client.session == Mine(u, State.Done, Find(u.mine, Last(u)))
         && p.server.session == Theirs(u, State.Done, Some(Last(u)))
         && Quiet(p.client, p.toClient) && Quiet(p.server, p.toServer)
       case ClientFailed =>
         && u.theirs != [] && u.magic != u.theirMagic
         && p.client.session == Mine(u, Confirm, None) && p.server.session == Theirs(u, State.Done, Some(Last(u)))
         && Quiet(p.server, p.toServer)
  }

  lemma NothingHanded(e: Peer, next: Peer)
    requires next.outbox == e.outbox
    ensures Handed(e, next) == []
  {
    assert next.outbox[|e.outbox|..] == [];
  }

  lemma OneHanded(e: Peer, next: Peer, payload: Octets)
    requires next.outbox == e.outbox + [payload]
    ensures Handed(e, next) == payload
  {
    assert next.outbox[|e.outbox|..] == [payload];
    ConcatOne(payload);
  }

  /** A side that expects nothing only drops empty frames. */
  lemma DropsEmptyFrame(e: Peer)
    requires PROTOCOL.PeersTurn(e.session) && e.inbox != [] && e.Pending() == []
    ensures Iterate(PROTOCOL, e).Stepped?
    ensures var next := Iterate(PROTOCOL, e).next;
            next.session == e.session && next.Pending() == [] && next.outbox == e.outbox && |next.inbox| == |e.inbox| - 1
  {
    assert e.inbox[0] == [] && Concat(e.inbox[1..]) == [];
    assert e.bytes + e.inbox[0] == [];
  }

  /** The data of the next round, and what will still be missing. */
  lemma PrefixOf(e: Peer, wire: Octets, message: Octets)
    requires e.inbox != [] && e.Pending() + wire == message
    ensures e.bytes + e.inbox[0] <= message
    ensures (e.bytes + e.inbox[0]) + Concat(e.inbox[1..]) + wire == message
    ensures e.bytes + e.inbox[0] == message ==> Concat(e.inbox[1..]) == [] && wire == []
  {
    Associative(e.bytes, e.inbox[0], Concat(e.inbox[1..]));
    var data := e.bytes + e.inbox[0];
    assert data + (Concat(e.inbox[1..]) + wire) == message;
    if data == message {
      assert |Concat(e.inbox[1..]) + wire| == 0;
    }
  }

  /** One frame of a message: the reader keeps it, or has the message and expects nothing any more. */
  lemma TakesFrame(e: Peer, wire: Octets, m: Message, fields: Fields, read: Message)
    requires PROTOCOL.PeersTurn(e.session) && e.inbox != []
    requires Carries(m, fields, read) && Coming(e, wire, EncodeMessage(fields))
    ensures var round, after := Iterate(PROTOCOL, e), Recv(e.session, read);
            || (round.Stepped? && round.next.session == e.session && round.next.outbox == e.outbox
                && |round.next.inbox| == |e.inbox| - 1 && Coming(round.next, wire, EncodeMessage(fields)))
            || (after.None? && round.Panicked?)
            || (after.Some? && round.Stepped? && round.next.session == after.value && round.next.outbox == e.outbox
                && Quiet(round.next, wire))
  {
    PrefixOf(e, wire, EncodeMessage(fields));
    FeedOneMessage(e.session, m, fields, read, e.bytes + e.inbox[0]);
  }

  lemma ArrivalKeeps(e: Peer, wire: Octets, n: nat)
    requires n <= |wire|
    ensures e.Arrive([wire[..n]]).Pending() + wire[n..] == e.Pending() + wire
  {
    ConcatAppend(e.inbox, [wire[..n]]);
    ConcatOne(wire[..n]);
    assert wire == wire[..n] + wire[n..];
    Associative(e.bytes, Concat(e.inbox), wire[..n]);
    Associative(e.Pending(), wire[..n], wire[n..]);
  }

  function Rank(phase: Phase): nat {
    match phase
    case Opening => 4
    case Proposing => 3
    case Choosing => 2
    case Confirming => 1
    case _ => 0
  }

  /** The frames that have arrived and are not read. */
  function Queued(p: Pairing): nat {
    |p.client.inbox| + |p.server.inbox|
  }

  /** A round either takes the handshake further or, if it does anything, takes one frame. */
  predicate Further(p: Pairing, phase: Phase, q: Pairing, next: Phase) {
    || Rank(next) < Rank(phase)
    || (next == phase && q.toServer == p.toServer && q.toClient == p.toClient && (q != p ==> Queued(q) < Queued(p)))
  }

  lemma ClientSends(u: Setup, p: Pairing)
    requires Usual(u) && In(u, p, Opening)
    ensures In(u, Step(p, ClientRound), Proposing)
  {
    var fields, read := ProposalCarries(u);
    var next := Iterate(PROTOCOL, p.client).next;
    OneHanded(p.client, next, EncodeMessage(fields));
    MessageRoundTrip(fields, []);
    assert [] + EncodeMessage(fields) == EncodeMessage(fields);
  }

  lemma ServerSends(u: Setup, p: Pairing)
    requires Usual(u) && In(u, p, Choosing)
    ensures In(u, Step(p, ServerRound), if u.theirs == [] then ServerFailed else Confirming)
  {
    if u.theirs != [] {
      var fields := AcceptanceCarries(u);
      var next := Iterate(PROTOCOL, p.server).next;
      OneHanded(p.server, next, EncodeMessage(fields));
      MessageRoundTrip(fields, []);
      assert [] + EncodeMessage(fields) == EncodeMessage(fields);
    }
  }

  lemma ServerReads(u: Setup, p: Pairing) returns (next: Phase)
    requires Usual(u) && In(u, p, Proposing) && p.server.inbox != []
    ensures In(u, Step(p, ServerRound), next) && Further(p, Proposing, Step(p, ServerRound), next)
  {
    var fields, read := ProposalCarries(u);
    TakesFrame(p.server, p.toServer, Proposal(u), fields, read);
    var round := Iterate(PROTOCOL, p.server).next;
    NothingHanded(p.server, round);
    next := if round.session == p.server.session then Proposing else Choosing;
  }

  lemma ClientReads(u: Setup, p: Pairing) returns (next: Phase)
    requires Usual(u) && In(u, p, Confirming) && p.client.inbox != []
    ensures In(u, Step(p, ClientRound), next) && Further(p, Confirming, Step(p, ClientRound), next)
  {
    var fields := AcceptanceCarries(u);
    TakesFrame(p.client, p.toClient, Acceptance(u), fields, Acceptance(u));
    if Iterate(PROTOCOL, p.client).Panicked? {
      return ClientFailed;
    }
    var round := Iterate(PROTOCOL, p.client).next;
    NothingHanded(p.client, round);
    next := if round.session == p.client.session then Confirming else Closed;
  }

  lemma ClientRoundKeeps(u: Setup, p: Pairing, phase: Phase) returns (next: Phase)
    requires Usual(u) && In(u, p, phase)
    ensures In(u, Step(p, ClientRound), next) && Further(p, phase, Step(p, ClientRound), next)
  {
    next := phase;
    if phase == Opening {
      ClientSends(u, p);
      next := Proposing;
    } else if PROTOCOL.PeersTurn(p.client.session) && p.client.inbox != [] && !p.clientCrashed {
      if phase == Confirming {
        next := ClientReads(u, p);
      } else {
        DropsEmptyFrame(p.client);
        NothingHanded(p.client, Iterate(PROTOCOL, p.client).next);
      }
    }
  }

  lemma ServerRoundKeeps(u: Setup, p: Pairing, phase: Phase) returns (next: Phase)
    requires Usual(u) && In(u, p, phase)
    ensures In(u, Step(p, ServerRound), next) && Further(p, phase, Step(p, ServerRound), next)
  {
    next := phase;
    if phase == Choosing {
      ServerSends(u, p);
      next := if u.theirs == [] then ServerFailed else Confirming;
    } else if PROTOCOL.PeersTurn(p.server.session) && p.server.inbox != [] && !p.serverCrashed {
      if phase == Proposing {
        next := ServerReads(u, p);
      } else {
        DropsEmptyFrame(p.server);
        NothingHanded(p.server, Iterate(PROTOCOL, p.server).next);
      }
    }
  }

  lemma ArrivalInPhase(u: Setup, p: Pairing, phase: Phase, move: Move)
    requires In(u, p, phase) && (move.ToServer? || move.ToClient?)
    ensures In(u, Step(p, move), phase)
  {
    match move
    case ToServer(n) =>
      if n <= |p.toServer| {
        ArrivalKeeps(p.server, p.toServer, n);
      }
    case ToClient(n) =>
      if n <= |p.toClient| {
        ArrivalKeeps(p.client, p.toClient, n);
      }
  }

  lemma {:induction false} StepsKeep(u: Setup, p: Pairing, phase: Phase, moves: seq<Move>) returns (end: Phase)
    requires Usual(u) && In(u, p, phase)
    ensures In(u, Steps(p, moves), end)
    decreases moves
  {
    end := phase;
    if moves != [] {
      match moves[0] {
        case ClientRound => end := ClientRoundKeeps(u, p, phase);
        case ServerRound => end := ServerRoundKeeps(u, p, phase);
        case _ => ArrivalInPhase(u, p, phase, moves[0]);
      }
      end := StepsKeep(u, Step(p, moves[0]), end, moves[1..]);
    }
  }

  lemma Reachable(u: Setup, moves: seq<Move>) returns (phase: Phase)
    requires Usual(u)
    ensures In(u, Steps(Start(u), moves), phase)
  {
    phase := StepsKeep(u, Start(u), Opening, moves);
  }

  // ---------------------------------------------------------------- what holds in every reachable state

  predicate ClientsTurn(p: Pairing) {
    !p.clientCrashed && PROTOCOL.MyTurn(p.client.session)
  }

  predicate ServersTurn(p: Pairing) {
    !p.serverCrashed && PROTOCOL.MyTurn(p.server.session)
  }

  /** At most one side can act; when one can, not an octet is under way or unread, and otherwise octets are
      under way to one side at most. */
  lemma {:induction false} AtMostOneActs(u: Setup, moves: seq<Move>)
    requires Usual(u)
    ensures var p := Steps(Start(u), moves);
            var (forServer, forClient) := (p.server.Pending() + p.toServer, p.client.Pending() + p.toClient);
            && !(ClientsTurn(p) && ServersTurn(p))
            && (ClientsTurn(p) || ServersTurn(p) ==> forServer == [] && forClient == [])
            && (forServer == [] || forClient == [])
  {
    var phase := Reachable(u, moves);
  }

  /** A version the client has is the one the server recorded: the last of the server's versions, one of the
      client's, and on the same network. */
  lemma {:induction false} AgreementIsMutual(u: Setup, moves: seq<Move>)
    requires Usual(u)
    ensures var p := Steps(Start(u), moves);
            match Agreed(p.client.session)
            case None => true
            case Some(Offer(v, magic)) =>
              && p.client.session.state == State.Done
              && Agreed(p.server.session) == Some(Offer(v, magic))
              && u.theirs != [] && v == Last(u) && v in u.mine
              && magic == u.magic == u.theirMagic
  {
    var phase := Reachable(u, moves);
  }

  /** Nothing is under way and neither side can go on. */
  predicate Over(p: Pairing) {
    p.toServer == [] && p.toClient == [] && Step(p, ClientRound) == p && Step(p, ServerRound) == p
  }

  /** How a handshake ends depends on the two version lists and the two magics only: a server without
      versions panics, else a client on another network does, else both sides are done, the server with its
      last version, the client with the same one if it knows it and with an error if not. */
  predicate Ending(u: Setup, p: Pairing) {
    && p.serverCrashed == (u.theirs == [])
    && p.clientCrashed == (u.theirs != [] && u.magic != u.theirMagic)
    && (u.theirs != [] ==> Agreed(p.server.session) == Some(Offer(Last(u), u.theirMagic)))
    && (u.theirs != [] && u.magic == u.theirMagic ==>
          && p.client.session.state == State.Done
          && Agreed(p.client.session) == if Last(u) in u.mine then Some(Offer(Last(u), u.magic)) else None)
    && (u.theirs == [] || u.magic != u.theirMagic ==> Agreed(p.client.session) == None)
  }

  lemma AllRead(e: Peer)
    ensures e.inbox == [] ==> e.Pending() == e.bytes
  {
  }

  /** A round that takes a frame changes the endpoint. */
  lemma StillTakes(e: Peer)
    requires PROTOCOL.PeersTurn(e.session) && e.inbox != []
    ensures Iterate(PROTOCOL, e) != Stepped(e) && !Iterate(PROTOCOL, e).Waiting? && !Iterate(PROTOCOL, e).Ended?
  {
  }

  lemma OverMeansEnded(u: Setup, p: Pairing, phase: Phase)
    requires Usual(u) && In(u, p, phase) && Over(p)
    ensures Ending(u, p)
  {
    match phase
    case Opening =>
      ClientSends(u, p);
      assert false;
    case Choosing =>
      ServerSends(u, p);
      assert false;
    case Proposing =>
      AllRead(p.server);
      if p.server.inbox != [] {
        var next := ServerReads(u, p);
        StillTakes(p.server);
      }
      assert false;
    case Confirming =>
      AllRead(p.client);
      if p.client.inbox != [] {
        var next := ClientReads(u, p);
        StillTakes(p.client);
      }
      assert false;
    case _ =>
  }

  lemma {:induction false} EveryEnd(u: Setup, moves: seq<Move>)
    requires Usual(u) && Over(Steps(Start(u), moves))
    ensures Ending(u, Steps(Start(u), moves))
  {
    var phase := Reachable(u, moves);
    OverMeansEnded(u, Steps(Start(u), moves), phase);
  }

  lemma {:induction false} StepsStep(p: Pairing, move: Move, moves: seq<Move>)
    ensures Steps(p, [move] + moves) == Steps(Step(p, move), moves)
  {
    assert ([move] + moves)[0] == move && ([move] + moves)[1..] == moves;
  }

  /** From every reachable state the handshake can be brought to its end: it never gets stuck before. */
  lemma {:induction false} CanFinish(u: Setup, p: Pairing, phase: Phase) returns (moves: seq<Move>)
    requires Usual(u) && In(u, p, phase)
    ensures Over(Steps(p, moves)) && Ending(u, Steps(p, moves))
    decreases Rank(phase), |p.toServer| + |p.toClient|, Queued(p)
  {
    moves := [];
    if Over(p) {
      OverMeansEnded(u, p, phase);
      return;
    }
    var move, next := ClientRound, phase;
    if p.toServer != [] {
      move := ToServer(|p.toServer|);
      ArrivalInPhase(u, p, phase, move);
    } else if p.toClient != [] {
      move := ToClient(|p.toClient|);
      ArrivalInPhase(u, p, phase, move);
    } else if Step(p, ClientRound) != p {
      next := ClientRoundKeeps(u, p, phase);
    } else {
      move := ServerRound;
      next := ServerRoundKeeps(u, p, phase);
    }
    var rest := CanFinish(u, Step(p, move), next);
    StepsStep(p, move, rest);
    moves := [move] + rest;
  }

  lemma NeverStuck(u: Setup, moves: seq<Move>) returns (more: seq<Move>)
    requires Usual(u)
    ensures Over(Steps(Steps(Start(u), moves), more)) && Ending(u, Steps(Steps(Start(u), moves), more))
  {
    var phase := Reachable(u, moves);
    more := CanFinish(u, Steps(Start(u), moves), phase);
  }

  // ---------------------------------------------------------------- the call

  /** The client's driver is a number of its rounds. */
  lemma {:induction false} ClientDrives(u: Setup, p: Pairing, phase: Phase) returns (q: Pairing, end: Phase)
    requires Usual(u) && In(u, p, phase) && !p.clientCrashed
    ensures In(u, q, end) && q.server == p.server
    ensures Go(p.client) == (Go(p.client).0, q.client)
    ensures Go(p.client).0 == Crashed <==> q.clientCrashed
    ensures Go(p.client).0 == Completed ==> q.client.session.state == State.Done
    decreases |p.client.inbox|, if PROTOCOL.MyTurn(p.client.session) then 1 else 0
  {
    hide Feed, In;
    SendsOnce();
    q := Step(p, ClientRound);
    end := ClientRoundKeeps(u, p, phase);
    if Iterate(PROTOCOL, p.client).Stepped? {
      q, end := ClientDrives(u, q, end);
    }
  }

  /** Whenever the client negotiates and however far its peer is: it panics only if the networks differ; it
      returns a version only if the server has recorded it, and then it is the last of the server's and one of
      the client's; and it fails only if the server's last version is not among the client's. */
  lemma {:induction false} NegotiateIsMutual(u: Setup, moves: seq<Move>)
    requires Usual(u) && !Steps(Start(u), moves).clientCrashed
    ensures var p := Steps(Start(u), moves);
            var (poll, e) := Go(p.client);
            && (poll == Crashed ==> u.theirs != [] && u.magic != u.theirMagic)
            && (poll == Completed ==>
                  && u.theirs != [] && u.magic == u.theirMagic
                  && Agreed(p.server.session) == Some(Offer(Last(u), u.theirMagic))
                  && Agreed(e.session) == if Last(u) in u.mine then Some(Offer(Last(u), u.magic)) else None)
  {
    var phase := Reachable(u, moves);
    var q, end := ClientDrives(u, Steps(Start(u), moves), phase);
  }
}

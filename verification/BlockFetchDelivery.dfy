/** Block-Fetch delivers: the caller of run and next gets the blocks of the server's reply, whenever its frames
    arrive. */
module BlockFetchDelivery {
  import opened Bytes
  import opened Cbor
  import opened MessageStream
  import opened Driver
  import opened Values
  import opened BlockFetch
  import opened BlockFetchRuns
  import opened BlockFetchCalls

  // ---------------------------------------------------------------- replies

  /** What a server answers to a range request. */
  datatype Reply = Refusal | Batch(blocks: seq<Octets>)

  function BatchFields(blocks: seq<Octets>): seq<Fields> {
    if blocks == [] then [ToValues(BatchDone)] else [ToValues(Block(blocks[0]))] + BatchFields(blocks[1..])
  }

  function ReplyFields(reply: Reply): seq<Fields> {
    match reply
    case Refusal => [ToValues(NoBlocks)]
    case Batch(blocks) => [ToValues(StartBatch)] + BatchFields(blocks)
  }

  function ReplyBlocks(reply: Reply): seq<Octets> {
    match reply case Refusal => [] case Batch(blocks) => blocks
  }

  predicate ReplySized(reply: Reply) {
    forall b | b in ReplyBlocks(reply) :: |b| < TWO64
  }

  lemma {:induction false} BatchIsConforming(blocks: seq<Octets>)
    requires forall b | b in blocks :: |b| < TWO64
    ensures forall m | m in BatchFields(blocks) :: EncodableMessage(m)
    ensures ServerRun(Streaming, BatchFields(blocks)) == Some(Idle)
    ensures BlocksIn(BatchFields(blocks)) == blocks
  {
    hide EncodableMessage, ToValues, FromValues;
    if blocks == [] {
      Encodes(BatchDone);
      CodecExact(BatchDone, []);
    } else {
      var m := Block(blocks[0]);
      Encodes(m);
      CodecExact(m, []);
      BatchIsConforming(blocks[1..]);
      var all := BatchFields(blocks);
      assert all[0] == ToValues(m) && all[1..] == BatchFields(blocks[1..]);
      assert [blocks[0]] + blocks[1..] == blocks;
    }
  }

  lemma ReplyIsConforming(reply: Reply)
    requires ReplySized(reply)
    ensures forall m | m in ReplyFields(reply) :: EncodableMessage(m)
    ensures ServerRun(Busy, ReplyFields(reply)) == Some(Idle)
    ensures BlocksIn(ReplyFields(reply)) == ReplyBlocks(reply)
  {
    hide EncodableMessage, ToValues, FromValues;
    match reply
    case Refusal =>
      Encodes(NoBlocks);
      CodecExact(NoBlocks, []);
    case Batch(blocks) =>
      Encodes(StartBatch);
      CodecExact(StartBatch, []);
      BatchIsConforming(blocks);
      var all := ReplyFields(reply);
      assert all[0] == ToValues(StartBatch) && all[1..] == BatchFields(blocks);
      assert [] + blocks == blocks;
  }

  function ReplyOctets(reply: Reply): Octets
    requires ReplySized(reply)
  {
    ReplyIsConforming(reply);
    EncodeAll(ReplyFields(reply))
  }

  // ---------------------------------------------------------------- once everything has arrived

  /** The answers of n calls of next in a row, as far as they complete. */
  function Nexts(e: Link, n: nat): (seq<Option<Octets>>, Link)
    decreases n
  {
    if n == 0 then ([], e)
    else
      var a := NextCall(e);
      if a.poll != Completed then ([], a.link)
      else
        var (answers, link) := Nexts(a.link, n - 1);
        ([a.block] + answers, link)
  }

  /** The given blocks, then None for ever. */
  function Answers(blocks: seq<Octets>, n: nat): (r: seq<Option<Octets>>)
    ensures |r| == n
  {
    seq(n, i requires 0 <= i => if i < |blocks| then Some(blocks[i]) else None)
  }

  /** A link between calls whose server has sent all it will: the blocks still to be handed out. */
  predicate Stocked(e: Link, returned: seq<Octets>, blocks: seq<Octets>) {
    OpenInv(e, returned, false) && Rests(e) && Coming(e) == (Some(Idle), blocks)
  }

  lemma NothingComing(e: Link, returned: seq<Octets>, blocks: seq<Octets>)
    requires Stocked(e, returned, blocks) && e.session.state == Idle
    ensures e.Pending() == [] && e.session.result == blocks
  {
    SilentServer(Idle, e.Pending());
    assert e.session.result + [] == e.session.result;
  }

  /** A next that has to wait for the network never waits in vain. */
  lemma FetchingNext(e: Link, returned: seq<Octets>, blocks: seq<Octets>)
    requires OpenInv(e, returned, false) && PROTOCOL.PeersTurn(e.session) && Coming(e) == (Some(Idle), blocks)
    ensures Go(e).0 == Completed && Stocked(Go(e).1, returned, blocks)
    ensures Go(e).1.session.result == [] ==> Go(e).1.session.state == Idle
  {
    DriveKeeps(e, returned);
    ReceivingKeepsOutlook(e);
    var end := Go(e).1;
    if Go(e).0 == Suspended {
      assert end.Pending() == end.bytes;
      SettledScan(end.bytes);
      assert false;
    }
  }

  lemma OneNext(e: Link, returned: seq<Octets>, blocks: seq<Octets>)
    requires Stocked(e, returned, blocks)
    ensures var a := NextCall(e);
            && a.poll == Completed
            && a.block == (if blocks == [] then None else Some(blocks[0]))
            && Stocked(a.link, returned + blocks[..|blocks| - |Left(blocks)|], Left(blocks))
            && (blocks == [] ==> a.link.session.state == Idle)
  {
    var ready := e;
    if e.session.result == [] && e.session.state == Streaming {
      FetchingNext(Resumed(e), returned, blocks);
      ready := Go(Resumed(e)).1;
    }
    TakeNext(ready, returned, blocks);
  }

  function Left(blocks: seq<Octets>): seq<Octets> {
    if blocks == [] then [] else blocks[1..]
  }

  lemma TakeNext(e: Link, returned: seq<Octets>, blocks: seq<Octets>)
    requires Stocked(e, returned, blocks) && (e.session.result == [] ==> e.session.state == Idle)
    ensures var a := Take(e);
            && a.poll == Completed
            && a.block == (if blocks == [] then None else Some(blocks[0]))
            && Stocked(a.link, returned + blocks[..|blocks| - |Left(blocks)|], Left(blocks))
            && (blocks == [] ==> a.link.session.state == Idle)
  {
    var result := e.session.result;
    if result == [] {
      NothingComing(e, returned, blocks);
      assert returned + [] == returned;
    } else {
      var later := BlocksIn(ScanMessages(e.Pending()).messages);
      assert blocks == result + later && blocks[1..] == result[1..] + later;
      assert blocks[..1] == [result[0]];
      assert returned + result == (returned + [result[0]]) + result[1..];
    }
  }

  lemma AnswersStep(blocks: seq<Octets>, n: nat)
    requires n > 0
    ensures [if blocks == [] then None else Some(blocks[0])] + Answers(Left(blocks), n - 1) == Answers(blocks, n)
  {
  }

  /** Repeated calls of next hand out exactly the blocks to come, in order, and then None; after that the
      session is Idle and not an octet is left over. */
  lemma {:induction false} NextsDeliver(e: Link, returned: seq<Octets>, blocks: seq<Octets>, n: nat)
    requires Stocked(e, returned, blocks)
    ensures Nexts(e, n).0 == Answers(blocks, n)
    ensures n > |blocks| ==> Nexts(e, n).1.session.state == Idle && Nexts(e, n).1.Pending() == []
    decreases n
  {
    if n > 0 {
      OneNext(e, returned, blocks);
      var a := NextCall(e);
      var later := returned + blocks[..|blocks| - |Left(blocks)|];
      NextsDeliver(a.link, later, Left(blocks), n - 1);
      AnswersStep(blocks, n);
      if blocks == [] && n == 1 {
        NothingComing(a.link, later, []);
      }
    }
  }

  /** A client that may ask for its range: a fresh one, or one whose last batch is over. */
  predicate Ready(e: Link, returned: seq<Octets>) {
    OpenInv(e, returned, false) && !e.session.running && e.session.state == Idle && e.session.result == []
  }

  lemma FreshIsReady(first: Point, last: Point)
    requires Sized(RequestRange(first, last))
    ensures Ready(Fresh(first, last), [])
  {
    assert ScanMessages([]) == Scan([], 0, true);
    assert Fresh(first, last).Pending() == [];
  }

  /** Run first sends the request and waits. */
  lemma RunAsks(e: Link, returned: seq<Octets>)
    requires Ready(e, returned)
    ensures var (poll, e') := Go(Resumed(e));
            && poll == Suspended && OpenInv(e', returned, false) && Waits(e')
            && e'.session.state == Busy && e'.session.result == [] && e'.Pending() == []
            && e'.log == e.log + [Tx(RequestRange(e.session.first, e.session.last))]
            && EncodableMessage(ToValues(RequestRange(e.session.first, e.session.last)))
            && e'.outbox == e.outbox + [EncodeMessage(ToValues(RequestRange(e.session.first, e.session.last)))]
  {
    Encodes(RequestRange(e.session.first, e.session.last));
    SilentServer(Idle, e.Pending());
    DriveKeeps(Resumed(e), returned);
    SendsOnce();
    SendKeeps(Resumed(e), returned);
    var asked := Iterate(PROTOCOL, Resumed(e)).next;
    assert Go(Resumed(e)) == Go(asked);
    EmptyFramesOnly(PROTOCOL, asked);
  }

  /** So the first thing a new client sends is the request for the range it was built for, and nothing else
      until it is answered. */
  lemma FreshAsks(first: Point, last: Point)
    requires Sized(RequestRange(first, last))
    ensures EncodableMessage(ToValues(RequestRange(first, last)))
    ensures var (poll, e) := Go(Resumed(Fresh(first, last)));
            && poll == Suspended
            && e.outbox == [EncodeMessage(ToValues(RequestRange(first, last)))]
            && e.log == [Tx(RequestRange(first, last))]
  {
    Encodes(RequestRange(first, last));
    FreshIsReady(first, last);
    RunAsks(Fresh(first, last), []);
  }

  // ---------------------------------------------------------------- while frames arrive

  /** What is to come for a link once later octets have arrived too. */
  function ComingWith(e: Link, later: Octets): (Option<State>, seq<Octets>) {
    Outlook(e.session, ScanMessages(e.Pending() + later).messages)
  }

  /** The blocks handed out, those queued, those in the octets kept or queued and those in the octets still to
      arrive are all blocks, in order. */
  predicate Supplied(e: Link, returned: seq<Octets>, unseen: Octets, blocks: seq<Octets>) {
    && OpenInv(e, returned, false)
    && Conforming(e.session.state, e.Pending() + unseen)
    && ComingWith(e, unseen).0 == Some(Idle)
    && returned + ComingWith(e, unseen).1 == blocks
  }

  lemma ArrivalSupplies(e: Link, returned: seq<Octets>, frame: Octets, unseen: Octets, blocks: seq<Octets>)
    requires Supplied(e, returned, frame + unseen, blocks)
    ensures Supplied(e.Arrive([frame]), returned, unseen, blocks)
  {
    var next := e.Arrive([frame]);
    assert next.Pending() == e.Pending() + frame by {
      ConcatAppend(e.inbox, [frame]);
      ConcatOne(frame);
      Associative(e.bytes, Concat(e.inbox), frame);
    }
    Associative(e.Pending(), frame, unseen);
    ConformingPrefix(e.session.state, next.Pending(), unseen);
  }

  /** What a frame does to a link does not depend on what comes later. */
  lemma FrameSupplies(e: Link, unseen: Octets)
    requires PROTOCOL.PeersTurn(e.session) && e.inbox != [] && Conforming(e.session.state, e.Pending() + unseen)
    ensures Iterate(PROTOCOL, e).Stepped?
    ensures var next := Iterate(PROTOCOL, e).next;
            Conforming(next.session.state, next.Pending() + unseen) && ComingWith(next, unseen) == ComingWith(e, unseen)
  {
    var a, b := e.bytes + e.inbox[0], Concat(e.inbox[1..]);
    assert e.Pending() == a + b;
    Associative(a, b, unseen);
    FrameKeeps(e.session, a, b + unseen);
    var leftover := Feed(PROTOCOL, e.session, a).value.leftover;
    Associative(leftover, b, unseen);
  }

  /** A call under way: supplied, not about to send, and not going to end without a reason. */
  predicate UnderWay(e: Link, returned: seq<Octets>, unseen: Octets, blocks: seq<Octets>) {
    && Supplied(e, returned, unseen, blocks)
    && !PROTOCOL.MyTurn(e.session)
    && (e.session.running || e.session.state == Idle || e.session.result != [])
  }

  lemma RoundSupplies(e: Link, returned: seq<Octets>, unseen: Octets, blocks: seq<Octets>)
    requires UnderWay(e, returned, unseen, blocks)
    ensures var round := Iterate(PROTOCOL, e);
            !round.Panicked? && (round.Stepped? ==> UnderWay(round.next, returned, unseen, blocks))
  {
    if PROTOCOL.PeersTurn(e.session) && e.inbox != [] {
      var next, heard := ReceiveStep(e);
      ReceiveKeeps(e, returned, next, heard);
      FrameSupplies(e, unseen);
    }
  }

  lemma DriveSupplies(e: Link, returned: seq<Octets>, unseen: Octets, blocks: seq<Octets>)
    requires Supplied(e, returned, unseen, blocks) && PROTOCOL.PeersTurn(e.session)
    ensures Go(e).0 != Crashed && Supplied(Go(e).1, returned, unseen, blocks)
    ensures Go(e).0 == Suspended ==> PROTOCOL.PeersTurn(Go(e).1.session) && Go(e).1.inbox == []
    ensures Go(e).0 == Completed ==>
              Rests(Go(e).1) && (Go(e).1.session.state == Streaming ==> Go(e).1.session.result != [])
  {
    var inv := (x: Link) => UnderWay(x, returned, unseen, blocks);
    forall x | inv(x)
      ensures !Iterate(PROTOCOL, x).Panicked? && (Iterate(PROTOCOL, x).Stepped? ==> inv(Iterate(PROTOCOL, x).next))
    {
      RoundSupplies(x, returned, unseen, blocks);
    }
    SendsOnce();
    DriveInvariant(PROTOCOL, e, inv);
    assert inv(Go(e).1);
    DriveKeeps(e, returned);
  }

  /** A caller between run and the end of its stream, having been given base before run. */
  predicate Online(c: Caller, base: seq<Octets>, unseen: Octets, blocks: seq<Octets>) {
    && Supplied(c.link, c.returned, unseen, blocks) && base <= c.returned
    && (c.phase == AtRest || c.phase == Running || c.phase == Fetching)
    && if c.phase == AtRest then Rests(c.link) else PROTOCOL.PeersTurn(c.link.session)
  }

  lemma HandOutSupplies(e: Link, returned: seq<Octets>, base: seq<Octets>, unseen: Octets, blocks: seq<Octets>)
    requires Supplied(e, returned, unseen, blocks) && Rests(e) && base <= returned
    ensures Online(HandOut(e, returned), base, unseen, blocks)
  {
    HandOutKeeps(e, returned);
    var result, later := e.session.result, BlocksIn(ScanMessages(e.Pending() + unseen).messages);
    if result != [] {
      OneHandedOut(returned, result, later);
    } else {
      assert returned + [] == returned;
    }
  }

  lemma OneHandedOut<T>(returned: seq<T>, result: seq<T>, later: seq<T>)
    requires result != []
    ensures (returned + [result[0]]) + (result[1..] + later) == returned + (result + later)
  {
  }

  /** What can happen while a reply is on its way: frames arrive, next is called, the active call goes on. */
  predicate Streams(a: Action) {
    a.Arrive? || a.Next? || a.Poll?
  }

  /** The octets of the frames that arrive. */
  function Arrived(actions: seq<Action>): Octets {
    if actions == [] then []
    else (if actions[0].Arrive? then actions[0].frame else []) + Arrived(actions[1..])
  }

  lemma ActSupplies(c: Caller, a: Action, base: seq<Octets>, unseen: Octets, blocks: seq<Octets>)
    requires Online(c, base, unseen, blocks) && (a.Next? || a.Poll?)
    ensures Online(Act(c, a), base, unseen, blocks)
  {
    if a.Next? && c.phase == AtRest {
      if c.link.session.result != [] || c.link.session.state == Idle {
        HandOutSupplies(c.link, c.returned, base, unseen, blocks);
      }
    } else if a.Poll? && c.phase != AtRest {
      DriveSupplies(c.link, c.returned, unseen, blocks);
      var (poll, link) := Go(c.link);
      if poll == Completed && c.phase == Fetching {
        HandOutSupplies(link, c.returned, base, unseen, blocks);
      }
    }
  }

  lemma {:induction false} ActAllSupplies(
    c: Caller, actions: seq<Action>, base: seq<Octets>, unseen: Octets, blocks: seq<Octets>)
    requires Online(c, base, Arrived(actions) + unseen, blocks) && forall a | a in actions :: Streams(a)
    ensures Online(ActAll(c, actions), base, unseen, blocks)
    decreases actions
  {
    if actions == [] {
      assert [] + unseen == unseen;
    } else {
      assert Streams(actions[0]);
      var rest := Arrived(actions[1..]) + unseen;
      match actions[0] {
        case Arrive(frame) =>
          Associative(frame, Arrived(actions[1..]), unseen);
          ArrivalSupplies(c.link, c.returned, frame, rest, blocks);
        case _ =>
          assert [] + Arrived(actions[1..]) == Arrived(actions[1..]);
          ActSupplies(c, actions[0], base, rest, blocks);
      }
      ActAllSupplies(Act(c, actions[0]), actions[1..], base, unseen, blocks);
    }
  }

  // ---------------------------------------------------------------- delivery

  /** A caller whose run has sent its request and waits. */
  function Asked(e: Link, returned: seq<Octets>): Caller {
    Act(Act(Caller(e, AtRest, returned), Run), Poll)
  }

  /** Octets that answer a range request with blocks, in any encoding a conforming server may choose: from Busy
      back to Idle, and nothing after that. */
  predicate Carries(data: Octets, blocks: seq<Octets>) {
    var scan := ScanMessages(data);
    && Conforming(Busy, data)
    && ServerRun(Busy, scan.messages) == Some(Idle) && BlocksIn(scan.messages) == blocks
  }

  /** The octets of a reply as the library encodes it are such. */
  lemma ReplyCarries(reply: Reply)
    requires ReplySized(reply)
    ensures Carries(ReplyOctets(reply), ReplyBlocks(reply))
  {
    ReplyIsConforming(reply);
    ScanEncoded(ReplyFields(reply));
  }

  lemma AskedIsOnline(e: Link, returned: seq<Octets>, data: Octets, blocks: seq<Octets>)
    requires Ready(e, returned) && Carries(data, blocks)
    ensures Online(Asked(e, returned), returned, data, returned + blocks)
  {
    hide Conforming, Accept, Drive, ServerRun, BlocksIn;
    RunAsks(e, returned);
    CallsAreMethods(Caller(e, AtRest, returned));
    var link := Asked(e, returned).link;
    assert link.Pending() + data == data;
    assert [] + blocks == blocks;
  }

  /** A client that has nothing more to hand out, queued, pending or to come. */
  predicate Exhausted(c: Caller, unseen: Octets) {
    c.phase == AtRest && Ready(c.link, c.returned) && c.link.Pending() == [] && unseen == []
  }

  lemma IdleIsExhausted(c: Caller, base: seq<Octets>, unseen: Octets, blocks: seq<Octets>)
    requires Online(c, base, unseen, blocks)
    requires c.phase == AtRest && c.link.session.state == Idle && c.link.session.result == []
    ensures Exhausted(c, unseen) && c.returned == blocks
  {
    SilentServer(Idle, c.link.Pending() + unseen);
    assert c.link.Pending() == [] && unseen == [];
    assert [] + [] == c.link.session.result;
    assert c.returned + [] == c.returned;
  }

  /** Delivery, whenever the frames arrive: for every answer of a conforming server, every cut of its octets into
      frames, any client ready to ask, and every interleaving of arrivals, calls of next and polls, at every
      moment: nothing panics; the blocks handed out since run are the first blocks of the answer, in order; and
      a client at rest that is idle with nothing queued has handed out all of them, has received all octets of
      the answer, keeps none, and is ready to ask again. */
  lemma {:induction false} DeliveredAsItArrives(
    e: Link, returned: seq<Octets>, data: Octets, blocks: seq<Octets>, actions: seq<Action>)
    requires Ready(e, returned) && Carries(data, blocks)
    requires (forall a | a in actions :: Streams(a)) && Arrived(actions) <= data
    ensures var c := ActAll(Asked(e, returned), actions);
            && c.phase != Broken
            && returned <= c.returned <= returned + blocks
            && (c.phase == AtRest && c.link.session.state == Idle && c.link.session.result == [] ==>
                  && c.returned == returned + blocks && Arrived(actions) == data
                  && c.link.Pending() == [] && Ready(c.link, c.returned))
  {
    hide Carries;
    var unseen := data[|Arrived(actions)|..];
    assert Arrived(actions) + unseen == data;
    AskedIsOnline(e, returned, data, blocks);
    ActAllSupplies(Asked(e, returned), actions, returned, unseen, returned + blocks);
    var c := ActAll(Asked(e, returned), actions);
    if c.phase == AtRest && c.link.session.state == Idle && c.link.session.result == [] {
      IdleIsExhausted(c, returned, unseen, returned + blocks);
    }
  }

  /** Once all has arrived, an active call does not wait any longer. */
  lemma PollCompletes(c: Caller, base: seq<Octets>, blocks: seq<Octets>)
    requires Online(c, base, [], blocks)
    ensures Online(Act(c, Poll), base, [], blocks) && Act(c, Poll).phase == AtRest
  {
    ActSupplies(c, Poll, base, [], blocks);
    if c.phase != AtRest {
      DriveSupplies(c.link, c.returned, [], blocks);
      if Go(c.link).0 == Suspended {
        SomethingArrived(Go(c.link).1);
      }
    }
  }

  /** A link that has taken all its frames is not about to become Idle while it waits. */
  lemma SomethingArrived(e: Link)
    requires PROTOCOL.PeersTurn(e.session) && e.inbox == [] && Settled(e.bytes)
    ensures ComingWith(e, []).0 != Some(Idle)
  {
    assert e.Pending() + [] == e.bytes;
    SettledScan(e.bytes);
  }

  lemma OnlineIsStocked(c: Caller, base: seq<Octets>, blocks: seq<Octets>)
    requires Online(c, base, [], blocks) && c.phase == AtRest
    ensures c.returned <= blocks && Stocked(c.link, c.returned, blocks[|c.returned|..])
  {
    assert c.link.Pending() + [] == c.link.Pending();
    var rest := ComingWith(c.link, []).1;
    assert (c.returned + rest)[|c.returned|..] == rest;
  }

  /** And it all gets there: once the whole answer has arrived, however far its calls are by then, the active
      call ends, and any number of calls of next return exactly the blocks not yet handed out, in order, and
      then None. */
  lemma {:induction false} EverythingIsDelivered(
    e: Link, returned: seq<Octets>, data: Octets, blocks: seq<Octets>, actions: seq<Action>, calls: nat)
    returns (left: seq<Octets>)
    requires Ready(e, returned) && Carries(data, blocks)
    requires (forall a | a in actions :: Streams(a)) && Arrived(actions) == data
    ensures var c := Act(ActAll(Asked(e, returned), actions), Poll);
            && c.phase == AtRest
            && returned <= c.returned && c.returned + left == returned + blocks
            && Nexts(c.link, calls).0 == Answers(left, calls)
            && (calls > |left| ==>
                  Nexts(c.link, calls).1.session.state == Idle && Nexts(c.link, calls).1.Pending() == [])
  {
    hide Carries;
    var c, all := ActAll(Asked(e, returned), actions), returned + blocks;
    assert Arrived(actions) + [] == data;
    AskedIsOnline(e, returned, data, blocks);
    ActAllSupplies(Asked(e, returned), actions, returned, [], all);
    PollCompletes(c, returned, all);
    var d := Act(c, Poll);
    OnlineIsStocked(d, returned, all);
    left := all[|d.returned|..];
    NextsDeliver(d.link, d.returned, left, calls);
  }

  /** So a new client gets the blocks of its range and nothing else. */
  lemma {:induction false} FreshClientDelivers(first: Point, last: Point, reply: Reply, actions: seq<Action>)
    requires Sized(RequestRange(first, last)) && ReplySized(reply)
    requires (forall a | a in actions :: Streams(a)) && Arrived(actions) <= ReplyOctets(reply)
    ensures var c := ActAll(Asked(Fresh(first, last), []), actions);
            && c.phase != Broken
            && c.returned <= ReplyBlocks(reply)
            && (c.phase == AtRest && c.link.session.state == Idle && c.link.session.result == [] ==>
                  c.returned == ReplyBlocks(reply))
  {
    FreshIsReady(first, last);
    ReplyCarries(reply);
    assert [] + ReplyBlocks(reply) == ReplyBlocks(reply);
    DeliveredAsItArrives(Fresh(first, last), [], ReplyOctets(reply), ReplyBlocks(reply), actions);
  }

  // ---------------------------------------------------------------- a stream midway

  /** The start of a batch and its first block, which is empty. */
  function FirstBlock(): seq<Fields> {
    [ToValues(StartBatch), ToValues(Block([]))]
  }

  lemma {:induction false} DeliverOneMore(s: Session, m: Message, rest: seq<Fields>)
    requires Recv(s, m).Some?
    ensures var s' := Recv(s, m).value;
            && Deliver(PROTOCOL, s, [ToValues(m)] + rest) ==
               (match Deliver(PROTOCOL, s', rest)
                case None => None
                case Some(d) => Some(Delivered(d.session, [m] + d.received)))
            && ServerRun(s.state, [ToValues(m)] + rest) == ServerRun(s'.state, rest)
  {
    CodecExact(m, []);
    RecvMatchesSpec(s, m);
    var all := [ToValues(m)] + rest;
    assert all[0] == ToValues(m) && all[1..] == rest;
  }

  lemma {:induction false} FirstBlockDelivered(s: Session)
    requires s.state == Busy && s.running && s.result == []
    ensures Deliver(PROTOCOL, s, FirstBlock()) ==
            Some(Delivered(s.(state := Streaming, running := false, result := [[]]), [StartBatch, Block([])]))
    ensures ServerRun(Busy, FirstBlock()) == Some(Streaming)
  {
    hide ToValues;
    var started := s.(state := Streaming);
    assert started.result + [[]] == [[]];
    DeliverOneMore(started, Block([]), []);
    DeliverOneMore(s, StartBatch, [ToValues(Block([]))]);
    assert [ToValues(Block([]))] + [] == [ToValues(Block([]))];
    assert FirstBlock() == [ToValues(StartBatch)] + [ToValues(Block([]))];
    assert [StartBatch] + ([Block([])] + []) == [StartBatch, Block([])];
  }

  lemma {:induction false} FirstBlockArrives(s: Session)
    requires s.state == Busy && s.running && s.result == []
    ensures forall m | m in FirstBlock() :: EncodableMessage(m)
    ensures Feed(PROTOCOL, s, EncodeAll(FirstBlock())) ==
            Some(Fed(s.(state := Streaming, running := false, result := [[]]), [StartBatch, Block([])], []))
    ensures Conforming(Busy, EncodeAll(FirstBlock()))
  {
    hide Deliver, ServerRun, Feed, EncodableMessage, ToValues, EncodeAll;
    Encodes(StartBatch);
    Encodes(Block([]));
    var octets := EncodeAll(FirstBlock());
    ScanEncoded(FirstBlock());
    FeedInTwoPhases(PROTOCOL, s, octets);
    FirstBlockDelivered(s);
    assert octets[|octets|..] == [];
  }

  /** A caller with a new client whose run returned with the first block. */
  function Midway(first: Point, last: Point): Caller
    requires forall m | m in FirstBlock() :: EncodableMessage(m)
  {
    Act(Act(Asked(Fresh(first, last), []), Arrive(EncodeAll(FirstBlock()))), Poll)
  }

  /** There are streams midway, so done does not always close the link: from the one of a new client whose server
      has sent a first block it never does, whatever follows. */
  lemma {:induction false} DoneMidwayNeverCloses(first: Point, last: Point, actions: seq<Action>)
    requires Sized(RequestRange(first, last))
    ensures forall m | m in FirstBlock() :: EncodableMessage(m)
    ensures var c := Midway(first, last);
            && c.phase == AtRest && c.link.session.state == Streaming && CallerInv(c)
            && (PeerConforms(Act(c, Finish), actions) ==>
                  var d := ActAll(Act(c, Finish), actions);
                  d.link.session.state != State.Done && OnlyHeard(c.link.log, d.link.log))
  {
    FreshIsReady(first, last);
    RunAsks(Fresh(first, last), []);
    CallsAreMethods(Caller(Fresh(first, last), AtRest, []));
    var asked := Asked(Fresh(first, last), []);
    FirstBlockArrives(asked.link.session);
    FirstBlockEndsRun(asked);
    var c := Midway(first, last);
    if PeerConforms(Act(c, Finish), actions) {
      FinishCloses(c, actions);
    }
  }

  lemma FirstBlockEndsRun(asked: Caller)
    requires CallerInv(asked) && asked.phase == Running && Waits(asked.link) && asked.link.Pending() == []
    requires asked.link.session.state == Busy && asked.link.session.result == []
    requires forall m | m in FirstBlock() :: EncodableMessage(m)
    ensures var c := Act(Act(asked, Arrive(EncodeAll(FirstBlock()))), Poll);
            c.phase == AtRest && c.link.session.state == Streaming && CallerInv(c)
  {
    hide Conforming, Accept, Blocks, EncodeAll, FirstBlock, EncodableMessage, Feed, Drive, Settled, Deliver, Alternates;
    var octets := EncodeAll(FirstBlock());
    FirstBlockArrives(asked.link.session);
    var arrived := Act(asked, Arrive(octets));
    assert arrived.link.inbox == [octets] && arrived.link.bytes == [];
    assert [] + octets == octets && octets + [] == octets;
    assert arrived.link.Pending() == octets by {
      ConcatOne(octets);
    }
    PollKeeps(arrived);
    OneFrameEndsRun(arrived.link, octets);
  }

  lemma {:induction false} OneFrameEndsRun(e: Link, octets: Octets)
    requires PROTOCOL.PeersTurn(e.session) && e.inbox == [octets] && e.bytes == []
    requires Feed(PROTOCOL, e.session, octets).Some? && !Feed(PROTOCOL, e.session, octets).value.session.running
    ensures Go(e).0 == Completed && Go(e).1.session == Feed(PROTOCOL, e.session, octets).value.session
  {
    hide Feed;
    SendsOnce();
    assert e.bytes + e.inbox[0] == octets;
    var next := Iterate(PROTOCOL, e).next;
    assert Go(e) == Go(next) && Go(next) == (Completed, next);
  }
}

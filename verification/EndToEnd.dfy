/** The whole stack: from any schedule of the server's concurrent senders, any transport of their octets and any
    interleaving with the client and its callers, to what the callers get. */
module EndToEnd {
  import opened Bytes
  import opened ConnectedClient
  import M = MuxSystem
  import BlockFetch
  import opened BlockFetchCalls
  import opened BlockFetchDelivery
  import S = ChainSyncRuns
  import ChainSync
  import Values
  import ChainSyncClient

  // ---------------------------------------------------------------- Block-Fetch

  const BLOCKS: Kind<Caller, Action> := Kind(3, (c: Caller, a: Action) => BlockFetchCalls.Act(c, a), f => Arrive(f))

  /** While a range is fetched the caller calls next and lets calls go on whenever it likes. */
  predicate Fetches(move: Move<Action>) {
    Allowed(move, BLOCKS.channel) && (move.Do? ==> move.action.Next? || move.action.Poll?)
  }

  /** A client that is ready to ask, on a connection in any reachable state on which its channel is registered,
      calls run; after its request was sent, anything may happen. */
  ghost predicate Reached(
    before: seq<M.Step>, e: BlockFetch.Link, returned: seq<Octets>, moves: seq<Move<Action>>,
    start: Node<Caller>, n: Node<Caller>)
  {
    && M.SendsFit(before) && start == Node(M.Run(M.START, before), Asked(e, returned))
    && BLOCKS.channel in start.net.reader.queues
    && (forall m | m in moves :: Fetches(m))
    && n == ConnectedClient.ActAll(BLOCKS, start, moves)
  }

  /** Where it starts exists: a new client that registers its channel on a new connection and asks. */
  lemma ReachedExists(first: Values.Point, last: Values.Point) returns (start: Node<Caller>)
    requires BlockFetch.Sized(BlockFetch.RequestRange(first, last))
    ensures Reached([M.DoRegister(3)], BlockFetch.Fresh(first, last), [], [], start, start)
    ensures Ready(BlockFetch.Fresh(first, last), [])
  {
    FreshIsReady(first, last);
    start := Node(M.Run(M.START, [M.DoRegister(3)]), Asked(BlockFetch.Fresh(first, last), []));
    M.DemuxIsFifo([], [], 3);
    assert [] + [M.DoRegister(3)] + [] == [M.DoRegister(3)];
  }

  /** The channels on which the two protocols listen, and those on which their servers send. */
  lemma Channels(H: Octets -> Octets)
    ensures BLOCKS.channel == 3 && Values.Flip(BLOCKS.channel) == 0x8003
    ensures Headlines(H).channel == 2 && Values.Flip(Headlines(H).channel) == 0x8002
  {
  }

  lemma {:induction false} FoldIsActAll(c: Caller, actions: seq<Action>)
    ensures Fold(BLOCKS, c, actions) == BlockFetchCalls.ActAll(c, actions)
    decreases |actions|
  {
    if actions != [] {
      FoldIsActAll(BlockFetchCalls.Act(c, actions[0]), actions[1..]);
    }
  }

  lemma {:induction false} ArrivedAppend(a: seq<Action>, b: seq<Action>)
    ensures Arrived(a + b) == Arrived(a) + Arrived(b)
  {
    var c := a + b;
    if a == [] {
      assert c == b;
    } else {
      assert c[0] == a[0] && c[1..] == a[1..] + b;
      ArrivedAppend(a[1..], b);
      Associative(if a[0].Arrive? then a[0].frame else [], Arrived(a[1..]), Arrived(b));
    }
  }

  lemma OneSeen(n: Node<Caller>, move: Move<Action>)
    requires Fetches(move)
    ensures Arrived(Seen(BLOCKS, n, move)) == Concat(TakenBy(BLOCKS, n, move))
    ensures forall a | a in Seen(BLOCKS, n, move) :: Streams(a)
  {
    var seen, taken := Seen(BLOCKS, n, move), TakenBy(BLOCKS, n, move);
    if seen != [] {
      assert seen[1..] == [];
      assert Arrived(seen) == (if seen[0].Arrive? then seen[0].frame else []) + Arrived([]);
    }
    if taken != [] {
      ConcatOne(taken[0]);
    }
  }

  /** The octets of the frames the client sees are those of the frames it takes. */
  lemma {:induction false} SeesWhatItTakes(n: Node<Caller>, moves: seq<Move<Action>>)
    requires forall m | m in moves :: Fetches(m)
    ensures Arrived(Inputs(BLOCKS, n, moves)) == Concat(Taken(BLOCKS, n, moves))
    ensures forall a | a in Inputs(BLOCKS, n, moves) :: Streams(a)
    decreases |moves|
  {
    if moves != [] {
      assert Fetches(moves[0]);
      var next := ConnectedClient.Act(BLOCKS, n, moves[0]);
      OneSeen(n, moves[0]);
      SeesWhatItTakes(next, moves[1..]);
      ArrivedAppend(Seen(BLOCKS, n, moves[0]), Inputs(BLOCKS, next, moves[1..]));
      ConcatAppend(TakenBy(BLOCKS, n, moves[0]), Taken(BLOCKS, next, moves[1..]));
    }
  }

  /** The payloads for the client that it had not taken when it asked. */
  function SentSince(start: Node<Caller>, n: Node<Caller>): Octets {
    Concat(Sent(start.net, n.net, BLOCKS.channel))
  }

  /** The caller of a reached node is one whose frames arrived in some order with its calls, and the frames are
      the first of those sent. */
  lemma {:induction false} ReachedByActions(
    before: seq<M.Step>, e: BlockFetch.Link, returned: seq<Octets>, moves: seq<Move<Action>>,
    start: Node<Caller>, n: Node<Caller>)
    returns (actions: seq<Action>)
    requires Reached(before, e, returned, moves, start, n)
    ensures n.client == BlockFetchCalls.ActAll(Asked(e, returned), actions)
    ensures (forall a | a in actions :: Streams(a)) && Arrived(actions) <= SentSince(start, n)
    ensures Calm(n.net, BLOCKS.channel) ==> Arrived(actions) == SentSince(start, n)
  {
    actions := Inputs(BLOCKS, start, moves);
    InputsDecide(BLOCKS, start, moves);
    FoldIsActAll(start.client, actions);
    SeesWhatItTakes(start, moves);
    var later := TakenIsSent(before, BLOCKS, start, moves);
    ConcatAppend(Taken(BLOCKS, start, moves), later);
  }

  /** End to end, at every moment: for every answer of a conforming server, every cut of its octets into frames of
      at most 65535, every schedule of the server's concurrent senders on all channels, every chunking of the
      byte stream, and every interleaving with the driver and with calls of next: as long as what the server has
      sent the client is the answer or the first octets of it, nothing panics, and the blocks next has returned
      are the first of the answer, in order; and once the client is idle with nothing queued it has returned
      them all, the whole answer was sent, no octet of it is left over, and the client is ready for its next
      range. */
  lemma {:induction false} BlocksArrive(
    before: seq<M.Step>, e: BlockFetch.Link, returned: seq<Octets>, moves: seq<Move<Action>>,
    start: Node<Caller>, n: Node<Caller>, data: Octets, blocks: seq<Octets>)
    requires Reached(before, e, returned, moves, start, n) && Ready(e, returned) && Carries(data, blocks)
    requires SentSince(start, n) <= data
    ensures var c := n.client;
            && c.phase != Broken
            && returned <= c.returned <= returned + blocks
            && (c.phase == AtRest && c.link.session.state == BlockFetch.Idle && c.link.session.result == [] ==>
                  && c.returned == returned + blocks
                  && SentSince(start, n) == data
                  && c.link.Pending() == [] && Ready(c.link, c.returned))
  {
    hide Reached, SentSince, Ready, Carries;
    var actions := ReachedByActions(before, e, returned, moves, start, n);
    DeliveredAsItArrives(e, returned, data, blocks, actions);
  }

  /** And everything gets there: once the network is calm and the whole answer was sent, a call that is active
      ends, and any number of calls of next return exactly the blocks not yet returned, in order, and then
      None. */
  lemma {:induction false} AllBlocksArrive(
    before: seq<M.Step>, e: BlockFetch.Link, returned: seq<Octets>, moves: seq<Move<Action>>,
    start: Node<Caller>, n: Node<Caller>, data: Octets, blocks: seq<Octets>, calls: nat)
    returns (c: Caller, left: seq<Octets>)
    requires Reached(before, e, returned, moves, start, n) && Ready(e, returned) && Carries(data, blocks)
    requires SentSince(start, n) == data && Calm(n.net, BLOCKS.channel)
    ensures c == BlockFetchCalls.Act(n.client, Poll) && c.phase == AtRest
    ensures c.returned + left == returned + blocks
    ensures Nexts(c.link, calls).0 == Answers(left, calls)
    ensures calls > |left| ==>
              var (_, end) := Nexts(c.link, calls); end.session.state == BlockFetch.Idle && end.Pending() == []
  {
    hide Reached, SentSince, Ready, Carries;
    var actions := ReachedByActions(before, e, returned, moves, start, n);
    left := EverythingIsDelivered(e, returned, data, blocks, actions, calls);
    c := BlockFetchCalls.Act(n.client, Poll);
  }

  /** A client that has delivered one range asks for the next on the same connection and registration: then the
      node is where all of the above starts. */
  lemma {:induction false} NextRange(
    before: seq<M.Step>, e: BlockFetch.Link, returned: seq<Octets>, moves: seq<Move<Action>>,
    start: Node<Caller>, n: Node<Caller>)
    returns (since: seq<M.Step>, again: Node<Caller>)
    requires Reached(before, e, returned, moves, start, n) && n.client.phase == AtRest
    ensures again == n.(client := BlockFetchCalls.Act(BlockFetchCalls.Act(n.client, Run), Poll))
    ensures Reached(since, n.client.link, n.client.returned, [], again, again)
  {
    since := before + StepsOf(BLOCKS, start, moves);
    NetRuns(BLOCKS, start, moves);
    M.RunAppend(M.START, before, StepsOf(BLOCKS, start, moves));
    M.ReachableInv(before, BLOCKS.channel, 0);
    MovesLater(BLOCKS, start, moves);
    again := n.(client := Asked(n.client.link, n.client.returned));
  }

  /** From every reached node the network can come to rest, without any action of the client's. */
  lemma {:induction false} CanComeToRest(
    before: seq<M.Step>, e: BlockFetch.Link, returned: seq<Octets>, moves: seq<Move<Action>>,
    start: Node<Caller>, n: Node<Caller>)
    returns (more: seq<Move<Action>>)
    requires Reached(before, e, returned, moves, start, n)
    ensures (forall m | m in more :: Fetches(m) && !m.Do?)
    ensures Calm(ConnectedClient.ActAll(BLOCKS, n, more).net, BLOCKS.channel)
  {
    M.ReachableInv(before, BLOCKS.channel, 0);
    MovesLater(BLOCKS, start, moves);
    more := CanCalm(BLOCKS, n);
  }

  // ---------------------------------------------------------------- Chain-Sync

  function Headlines(H: Octets -> Octets): Kind<S.Caller, S.Action> {
    Kind(2, (c: S.Caller, a: S.Action) => S.Act(H, c, a), f => S.Arrive(f))
  }

  lemma {:induction false} FoldIsSyncing(H: Octets -> Octets, c: S.Caller, actions: seq<S.Action>)
    ensures Fold(Headlines(H), c, actions) == S.ActAll(H, c, actions)
    decreases |actions|
  {
    if actions != [] {
      FoldIsSyncing(H, S.Act(H, c, actions[0]), actions[1..]);
    }
  }

  /** A Chain-Sync client on its connection: in every schedule, as long as its server conforms in the frames
      the client takes, which are the first of those sent to it, every call gets the answer to its own
      question. */
  lemma {:induction false} AnswersArrive(
    H: Octets -> Octets, before: seq<M.Step>, moves: seq<Move<S.Action>>, start: Node<S.Caller>, n: Node<S.Caller>)
    returns (later: seq<Octets>)
    requires M.SendsFit(before) && Headlines(H).channel in M.Run(M.START, before).reader.queues
    requires start == Node(M.Run(M.START, before), S.Caller(ChainSyncClient.FRESH, None, [], false))
    requires forall m | m in moves :: Allowed(m, Headlines(H).channel) && !(m.Do? && m.action.Arrive?)
    requires n == ConnectedClient.ActAll(Headlines(H), start, moves)
    requires S.AsksFit(Inputs(Headlines(H), start, moves))
    requires S.PeerConforms(H, start.client, Inputs(Headlines(H), start, moves))
    ensures Sent(start.net, n.net, Headlines(H).channel) == Taken(Headlines(H), start, moves) + later
    ensures var c, books := n.client, S.EnterAll(H, S.EMPTY, n.client.link.log);
            && !c.broken && books.Some?
            && (c.active.None? ==> books.value == S.Ledger(ChainSync.Idle, None, c.calls) && c.link.Pending() == [])
            && (c.active.Some? ==> c.calls <= books.value.answered)
  {
    var inputs := Inputs(Headlines(H), start, moves);
    later := TakenIsSent(before, Headlines(H), start, moves);
    InputsDecide(Headlines(H), start, moves);
    FoldIsSyncing(H, start.client, inputs);
    S.EveryCallIsAnswered(H, inputs);
  }
}

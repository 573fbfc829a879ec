/** A client of any mini-protocol on its end of a connection: every schedule of the peer's concurrent senders, of
    the byte transport, of the demultiplexer and of the client itself. */
module ConnectedClient {
  import opened Bytes
  import opened Values
  import opened Mux
  import M = MuxSystem

  /** What a client supplies: its channel, what an action does to it, and the action of a frame arriving. */
  datatype Kind<!C, !A> = Kind(channel: U16, act: (C, A) -> C, arrive: Octets -> A)

  datatype Node<C> = Node(net: M.System, client: C)

  /** A step of the connection, the client's channel taking its oldest queued frame, or an action of the client. */
  datatype Move<A> = Net(step: M.Step) | Take | Do(action: A)

  predicate Waiting(net: M.System, channel: U16) {
    channel in net.reader.queues && net.reader.queues[channel] != []
  }

  function Act<C, A>(k: Kind<C, A>, n: Node<C>, move: Move<A>): Node<C> {
    match move
    case Net(step) => n.(net := M.Next(n.net, step))
    case Take =>
      if Waiting(n.net, k.channel)
      then Node(M.Next(n.net, M.DoReceive(k.channel)), k.act(n.client, k.arrive(n.net.reader.queues[k.channel][0])))
      else n
    case Do(action) => n.(client := k.act(n.client, action))
  }

  function ActAll<C, A>(k: Kind<C, A>, n: Node<C>, moves: seq<Move<A>>): Node<C>
    decreases |moves|
  {
    if moves == [] then n else ActAll(k, Act(k, n, moves[0]), moves[1..])
  }

  /** Steps that leave the registration and the queue of the client's channel to the client. */
  predicate Apart(step: M.Step, channel: U16) {
    && step != M.DoRegister(channel) && step != M.DoUnregister(channel) && step != M.DoReceive(channel)
    && M.StepFits(step)
  }

  predicate Allowed<A>(move: Move<A>, channel: U16) {
    move.Net? ==> Apart(move.step, channel)
  }

  // ---------------------------------------------------------------- what the client sees

  /** What one move is to the client. */
  function Seen<C, A>(k: Kind<C, A>, n: Node<C>, move: Move<A>): seq<A> {
    match move
    case Net(_) => []
    case Take => if Waiting(n.net, k.channel) then [k.arrive(n.net.reader.queues[k.channel][0])] else []
    case Do(action) => [action]
  }

  /** The actions of the client and the frames it takes, in the order it sees them. */
  function Inputs<C, A>(k: Kind<C, A>, n: Node<C>, moves: seq<Move<A>>): seq<A>
    decreases |moves|
  {
    if moves == [] then [] else Seen(k, n, moves[0]) + Inputs(k, Act(k, n, moves[0]), moves[1..])
  }

  function TakenBy<C, A>(k: Kind<C, A>, n: Node<C>, move: Move<A>): seq<Octets> {
    if move.Take? && Waiting(n.net, k.channel) then [n.net.reader.queues[k.channel][0]] else []
  }

  /** The frames it takes. */
  function Taken<C, A>(k: Kind<C, A>, n: Node<C>, moves: seq<Move<A>>): seq<Octets>
    decreases |moves|
  {
    if moves == [] then [] else TakenBy(k, n, moves[0]) + Taken(k, Act(k, n, moves[0]), moves[1..])
  }

  function Fold<C, A>(k: Kind<C, A>, c: C, inputs: seq<A>): C
    decreases |inputs|
  {
    if inputs == [] then c else Fold(k, k.act(c, inputs[0]), inputs[1..])
  }

  /** The client is determined by what it sees; the rest of the connection is hidden from it. */
  lemma {:induction false} InputsDecide<C, A>(k: Kind<C, A>, n: Node<C>, moves: seq<Move<A>>)
    ensures ActAll(k, n, moves).client == Fold(k, n.client, Inputs(k, n, moves))
    decreases |moves|
  {
    if moves != [] {
      var next, seen, inputs := Act(k, n, moves[0]), Seen(k, n, moves[0]), Inputs(k, n, moves);
      InputsDecide(k, next, moves[1..]);
      if seen == [] {
        assert inputs == Inputs(k, next, moves[1..]);
      } else {
        assert inputs[0] == seen[0] && inputs[1..] == Inputs(k, next, moves[1..]);
      }
    }
  }

  // ---------------------------------------------------------------- what the peer sent

  /** The network at a later time, the client's channel still registered. */
  predicate Later(s: M.System, t: M.System, channel: U16) {
    && channel in s.reader.since && channel in t.reader.since
    && t.reader.since[channel] == s.reader.since[channel]
    && s.writers.granted <= t.writers.granted && s.reader.routed <= t.reader.routed
  }

  /** And the frames taken meanwhile. */
  predicate LaterBy(s: M.System, t: M.System, channel: U16, taken: seq<Octets>) {
    && Later(s, t, channel)
    && channel in s.reader.received && channel in t.reader.received
    && t.reader.received[channel] == s.reader.received[channel] + taken
  }

  ghost predicate Registered(s: M.System, channel: U16) {
    M.SystemInv(s, channel, 0) && channel in s.reader.queues
  }

  lemma StepLater(s: M.System, step: M.Step, channel: U16)
    requires Registered(s, channel) && Apart(step, channel)
    ensures Registered(M.Next(s, step), channel) && LaterBy(s, M.Next(s, step), channel, [])
  {
    hide M.WireInv, M.FitInv, M.ReaderInv, M.OrderInv, ReadFrame;
    M.NextKeeps(s, step, channel, 0);
    assert s.reader.received[channel] + [] == s.reader.received[channel];
  }

  lemma TakeLater(s: M.System, channel: U16)
    requires Registered(s, channel) && Waiting(s, channel)
    ensures var t := M.Next(s, M.DoReceive(channel));
            Registered(t, channel) && LaterBy(s, t, channel, [s.reader.queues[channel][0]])
  {
    hide M.WireInv, M.FitInv, M.ReaderInv, M.OrderInv;
    M.NextKeeps(s, M.DoReceive(channel), channel, 0);
  }

  lemma MoveLater<C, A>(k: Kind<C, A>, n: Node<C>, move: Move<A>)
    requires Registered(n.net, k.channel) && Allowed(move, k.channel)
    ensures var next := Act(k, n, move).net;
            Registered(next, k.channel) && LaterBy(n.net, next, k.channel, TakenBy(k, n, move))
  {
    hide M.WireInv, M.FitInv, M.ReaderInv, M.OrderInv, M.Next, ReadFrame;
    assert Registered(n.net, k.channel) ==> k.channel in n.net.reader.received && k.channel in n.net.reader.since;
    assert n.net.reader.received[k.channel] + [] == n.net.reader.received[k.channel];
    match move
    case Net(step) => StepLater(n.net, step, k.channel);
    case Take =>
      if Waiting(n.net, k.channel) {
        TakeLater(n.net, k.channel);
      }
    case Do(_) =>
  }

  lemma {:induction false} MovesLater<C, A>(k: Kind<C, A>, n: Node<C>, moves: seq<Move<A>>)
    requires Registered(n.net, k.channel) && forall m | m in moves :: Allowed(m, k.channel)
    ensures var end := ActAll(k, n, moves).net;
            Registered(end, k.channel) && LaterBy(n.net, end, k.channel, Taken(k, n, moves))
    decreases |moves|
  {
    hide M.SystemInv;
    if moves == [] {
      IsLater(n.net, k.channel);
    } else {
      assert moves[0] in moves;
      var next := Act(k, n, moves[0]);
      MoveLater(k, n, moves[0]);
      MovesLater(k, next, moves[1..]);
      Associative(n.net.reader.received[k.channel], TakenBy(k, n, moves[0]), Taken(k, next, moves[1..]));
    }
  }

  lemma IsLater(s: M.System, channel: U16)
    requires Registered(s, channel)
    ensures LaterBy(s, s, channel, [])
  {
    assert s.reader.received[channel] + [] == s.reader.received[channel];
  }

  /** The payloads for the client's channel that it had not taken at an earlier time s: those in its queue then,
      and those the peer's tasks have put on the wire that were routed later or not yet, in the order of the wire. */
  function Sent(s: M.System, t: M.System, channel: U16): seq<Octets> {
    (if channel in s.reader.queues then s.reader.queues[channel] else []) + Ahead(t, s.reader.routed, channel)
  }

  /** The payloads for a channel in the frames from a given one on. */
  function Ahead(t: M.System, from: nat, channel: U16): seq<Octets> {
    if from <= |t.writers.granted| then M.PayloadsSent(Flip(channel), t.writers.granted[from..]) else []
  }

  /** Nothing is left to write, to transport, to route or to take. */
  predicate Calm(net: M.System, channel: U16) {
    && net.writers.holder.None?
    && net.reader.arrived == |net.writers.wire|
    && ReadFrame(M.Unread(net.reader, net.writers.wire)).None?
    && !Waiting(net, channel)
  }

  /** The books of a channel at two times. */
  lemma SentBetween(s: M.System, t: M.System, channel: U16, taken: seq<Octets>)
    requires Registered(s, channel) && Registered(t, channel) && LaterBy(s, t, channel, taken)
    ensures Sent(s, t, channel) == taken + (t.reader.queues[channel] + Ahead(t, t.reader.routed, channel))
  {
    hide M.WireInv, M.FitInv, M.ReaderInv, M.OrderInv;
    var granted, from, mid, to := t.writers.granted, s.reader.since[channel], s.reader.routed, t.reader.routed;
    var id := Flip(channel);
    assert s.writers.granted[from..mid] == granted[from..mid];
    assert granted[from..to] == granted[from..mid] + granted[mid..to];
    M.SentAppend(id, granted[from..mid], granted[mid..to]);
    assert granted[mid..] == granted[mid..to] + granted[to..];
    M.SentAppend(id, granted[mid..to], granted[to..]);
    Rebook(s.reader.received[channel], s.reader.queues[channel], taken, t.reader.queues[channel],
           M.PayloadsSent(id, granted[mid..to]), M.PayloadsSent(id, granted[to..]));
  }

  lemma Rebook<T>(received: seq<T>, queue: seq<T>, taken: seq<T>, left: seq<T>, routed: seq<T>, ahead: seq<T>)
    requires (received + taken) + left == (received + queue) + routed
    ensures queue + (routed + ahead) == taken + (left + ahead)
  {
    assert ((received + taken) + left)[|received|..] == taken + left;
    assert ((received + queue) + routed)[|received|..] == queue + routed;
    assert queue + (routed + ahead) == (queue + routed) + ahead;
    assert taken + (left + ahead) == (taken + left) + ahead;
  }

  lemma AllRouted(net: M.System, channel: U16)
    requires Registered(net, channel) && Calm(net, channel)
    ensures net.reader.routed == |net.writers.granted| && net.reader.queues[channel] == []
  {
    var r, w := net.reader, net.writers;
    if r.routed < |w.granted| {
      M.UnreadAhead(r, w);
      var data, ahead := M.Unread(r, w.wire), w.granted[r.routed..];
      assert w.wire[r.arrived..] == [];
      assert data + [] == data;
      M.FrameReadable(data, [], ahead);
    }
  }

  /** What the client takes is the first of what the peer sent it, in the order of the wire; once the network is
      calm it is all of it. */
  lemma {:induction false} TakenIsSent<C, A>(
    before: seq<M.Step>, k: Kind<C, A>, start: Node<C>, moves: seq<Move<A>>) returns (later: seq<Octets>)
    requires M.SendsFit(before) && start.net == M.Run(M.START, before) && k.channel in start.net.reader.queues
    requires forall m | m in moves :: Allowed(m, k.channel)
    ensures Sent(start.net, ActAll(k, start, moves).net, k.channel) == Taken(k, start, moves) + later
    ensures Calm(ActAll(k, start, moves).net, k.channel) ==> later == []
  {
    M.ReachableInv(before, k.channel, 0);
    MovesLater(k, start, moves);
    var net := ActAll(k, start, moves).net;
    SentBetween(start.net, net, k.channel, Taken(k, start, moves));
    later := net.reader.queues[k.channel] + Ahead(net, net.reader.routed, k.channel);
    if Calm(net, k.channel) {
      AllRouted(net, k.channel);
      assert net.writers.granted[net.reader.routed..] == [];
    }
  }

  // ---------------------------------------------------------------- the connection alone

  function StepOf<C, A>(k: Kind<C, A>, n: Node<C>, move: Move<A>): seq<M.Step> {
    match move
    case Net(step) => [step]
    case Take => if Waiting(n.net, k.channel) then [M.DoReceive(k.channel)] else []
    case Do(_) => []
  }

  /** What the moves are to the connection. */
  function StepsOf<C, A>(k: Kind<C, A>, n: Node<C>, moves: seq<Move<A>>): seq<M.Step>
    decreases |moves|
  {
    if moves == [] then [] else StepOf(k, n, moves[0]) + StepsOf(k, Act(k, n, moves[0]), moves[1..])
  }

  lemma OneStep<C, A>(k: Kind<C, A>, n: Node<C>, move: Move<A>)
    ensures Act(k, n, move).net == M.Run(n.net, StepOf(k, n, move))
  {
    var steps := StepOf(k, n, move);
    if steps != [] {
      assert steps[1..] == [];
      assert M.Run(M.Next(n.net, steps[0]), []) == M.Next(n.net, steps[0]);
    }
  }

  /** With its client the connection only goes through states it can reach by itself. */
  lemma {:induction false} NetRuns<C, A>(k: Kind<C, A>, n: Node<C>, moves: seq<Move<A>>)
    requires forall m | m in moves :: Allowed(m, k.channel)
    ensures ActAll(k, n, moves).net == M.Run(n.net, StepsOf(k, n, moves))
    ensures M.SendsFit(StepsOf(k, n, moves))
    decreases |moves|
  {
    if moves != [] {
      assert moves[0] in moves;
      var next := Act(k, n, moves[0]);
      OneStep(k, n, moves[0]);
      NetRuns(k, next, moves[1..]);
      M.RunAppend(n.net, StepOf(k, n, moves[0]), StepsOf(k, next, moves[1..]));
    }
  }

  // ---------------------------------------------------------------- calm can be reached

  // What is left to write, to transport, to route and to take.

  function ToWrite(net: M.System): nat {
    var w := net.writers;
    if w.holder.Some? && w.holder.value.stage <= 4 then 5 - w.holder.value.stage else 0
  }

  function ToTransport(net: M.System): nat {
    if net.reader.arrived <= |net.writers.wire| then |net.writers.wire| - net.reader.arrived else 0
  }

  function ToRoute(net: M.System): nat {
    |M.Unread(net.reader, net.writers.wire)|
  }

  function ToTake(net: M.System, channel: U16): nat {
    if channel in net.reader.queues then |net.reader.queues[channel]| else 0
  }

  predicate Calmer(s: M.System, t: M.System, channel: U16) {
    if ToWrite(t) != ToWrite(s) then ToWrite(t) < ToWrite(s)
    else if ToTransport(t) != ToTransport(s) then ToTransport(t) < ToTransport(s)
    else if ToRoute(t) != ToRoute(s) then ToRoute(t) < ToRoute(s)
    else ToTake(t, channel) < ToTake(s, channel)
  }

  /** The next step towards a calm network. */
  function Calming<A>(net: M.System): Move<A> {
    var w, r := net.writers, net.reader;
    if w.holder.Some? then Net(M.Writing(if w.holder.value.stage == 4 then M.DoRelease else M.DoWrite))
    else if r.arrived < |w.wire| then Net(M.DoTransmit(|w.wire| - r.arrived))
    else if ReadFrame(M.Unread(r, w.wire)).Some? then Net(M.DoRoute)
    else Take
  }

  lemma NetCalms<A>(s: M.System, channel: U16)
    requires Registered(s, channel) && Calming<A>(s).Net?
    ensures Apart(Calming<A>(s).step, channel) && Calmer(s, M.Next(s, Calming<A>(s).step), channel)
  {
    hide M.FitInv, M.OrderInv, M.ChannelInv, M.WireOf, ReadFrame, Part;
    var r, w := s.reader, s.writers;
    if w.holder.None? && r.arrived == |w.wire| {
      RouteCalms(r, w.wire);
    }
  }

  lemma RouteCalms(r: M.Reader, wire: Octets)
    requires r.consumed <= r.arrived <= |wire| && ReadFrame(M.Unread(r, wire)).Some?
    ensures |M.Unread(M.RouteOne(r, wire), wire)| < |M.Unread(r, wire)|
    ensures M.RouteOne(r, wire).arrived == r.arrived
  {
  }

  lemma TakeCalms(s: M.System, channel: U16)
    requires Registered(s, channel) && Waiting(s, channel)
    ensures Calmer(s, M.Next(s, M.DoReceive(channel)), channel)
  {
    hide M.WireInv, M.FitInv, M.OrderInv, M.ReaderInv, ReadFrame;
  }

  lemma CalmingCalms<C, A>(k: Kind<C, A>, n: Node<C>)
    requires Registered(n.net, k.channel) && !Calm(n.net, k.channel)
    ensures Allowed(Calming<A>(n.net), k.channel) && !Calming<A>(n.net).Do?
    ensures Calmer(n.net, Act(k, n, Calming(n.net)).net, k.channel)
  {
    hide M.SystemInv, M.WireInv, M.FitInv, M.OrderInv, M.ReaderInv, ReadFrame, Calmer, Apart, M.Next;
    if Calming<A>(n.net).Net? {
      NetCalms<A>(n.net, k.channel);
    } else {
      NothingElseLeft<A>(n.net, k.channel);
      TakeCalms(n.net, k.channel);
    }
  }

  lemma NothingElseLeft<A>(net: M.System, channel: U16)
    requires Registered(net, channel) && !Calm(net, channel) && Calming<A>(net).Take?
    ensures Waiting(net, channel)
  {
    hide M.WireInv, M.FitInv, M.OrderInv, ReadFrame;
  }

  /** From every network calm can be reached: writing, transporting, routing and taking come to an end. */
  lemma {:induction false} CanCalm<C, A>(k: Kind<C, A>, n: Node<C>) returns (moves: seq<Move<A>>)
    requires Registered(n.net, k.channel)
    ensures (forall m | m in moves :: Allowed(m, k.channel) && !m.Do?) && Calm(ActAll(k, n, moves).net, k.channel)
    decreases ToWrite(n.net), ToTransport(n.net), ToRoute(n.net), ToTake(n.net, k.channel)
  {
    hide M.SystemInv, Apart, Calming, Calm;
    moves := [];
    if !Calm(n.net, k.channel) {
      var move: Move<A> := Calming(n.net);
      CalmingCalms(k, n);
      MoveLater(k, n, move);
      var rest := CanCalm(k, Act(k, n, move));
      moves := [move] + rest;
      assert moves[0] == move && moves[1..] == rest;
    }
  }
}

/** Many senders, one wire, one reader: the multiplexer as a transition system whose steps may come in any
    order, and what every schedule keeps. */
module MuxSystem {
  import opened Bytes
  import opened Values
  import opened Mux

  /** A task calling send with a frame. */
  datatype Call = Call(sender: nat, frame: Frame)

  /** The octets of whole frames, one after another: what atomic sends would write. */
  function WireOf(calls: seq<Call>): Octets {
    if calls == [] then [] else EncodeFrame(calls[0].frame) + WireOf(calls[1..])
  }

  function ArrivalOf(call: Call): Arrival {
    Arrival(Flip(call.frame.id), call.frame.payload)
  }

  function Own(sender: nat, call: Call): seq<Frame> {
    if call.sender == sender then [call.frame] else []
  }

  /** The frames of one sender, in order. */
  function By(sender: nat, calls: seq<Call>): seq<Frame> {
    if calls == [] then [] else Own(sender, calls[0]) + By(sender, calls[1..])
  }

  function PayloadOn(id: U16, call: Call): seq<Octets> {
    if call.frame.id == id then [call.frame.payload] else []
  }

  /** The payloads sent on a channel, in order. */
  function PayloadsSent(id: U16, calls: seq<Call>): seq<Octets> {
    if calls == [] then [] else PayloadOn(id, calls[0]) + PayloadsSent(id, calls[1..])
  }

  ghost predicate AllFit(calls: seq<Call>) {
    forall c | c in calls :: Fits(c.frame)
  }

  lemma {:induction false} WireAppend(a: seq<Call>, b: seq<Call>)
    ensures WireOf(a + b) == WireOf(a) + WireOf(b)
  {
    var c := a + b;
    if a == [] {
      assert c == b;
    } else {
      assert c[0] == a[0] && c[1..] == a[1..] + b;
      WireAppend(a[1..], b);
      Associative(EncodeFrame(a[0].frame), WireOf(a[1..]), WireOf(b));
    }
  }

  lemma {:induction false} ByAppend(sender: nat, a: seq<Call>, b: seq<Call>)
    ensures By(sender, a + b) == By(sender, a) + By(sender, b)
  {
    var c := a + b;
    if a == [] {
      assert c == b;
    } else {
      assert c[0] == a[0] && c[1..] == a[1..] + b;
      ByAppend(sender, a[1..], b);
      Associative(Own(sender, a[0]), By(sender, a[1..]), By(sender, b));
    }
  }

  lemma {:induction false} SentAppend(id: U16, a: seq<Call>, b: seq<Call>)
    ensures PayloadsSent(id, a + b) == PayloadsSent(id, a) + PayloadsSent(id, b)
  {
    var c := a + b;
    if a == [] {
      assert c == b;
    } else {
      assert c[0] == a[0] && c[1..] == a[1..] + b;
      SentAppend(id, a[1..], b);
      Associative(PayloadOn(id, a[0]), PayloadsSent(id, a[1..]), PayloadsSent(id, b));
    }
  }

  lemma OneCall(call: Call)
    ensures WireOf([call]) == EncodeFrame(call.frame)
    ensures forall x: nat :: By(x, [call]) == Own(x, call)
    ensures forall i: U16 :: PayloadsSent(i, [call]) == PayloadOn(i, call)
  {
    assert [call][1..] == [];
  }

  // ---------------------------------------------------------------- the writers

  /** The task that has the lock, and how many of its four writes are done. */
  datatype Holder = Holder(call: Call, stage: nat)

  /** The calls waiting for the lock, its holder and the octets written; and for the record the calls in the
      order they were made and in the order they got the lock. */
  datatype Writers = Writers(
    waiting: map<nat, Frame>,
    holder: Option<Holder>,
    wire: Octets,
    called: seq<Call>,
    granted: seq<Call>)

  // A step that is not possible changes nothing.

  function Send(w: Writers, call: Call): Writers {
    if call.sender in w.waiting || (w.holder.Some? && w.holder.value.call.sender == call.sender) then w
    else w.(waiting := w.waiting[call.sender := call.frame], called := w.called + [call])
  }

  function Acquire(w: Writers, sender: nat): Writers {
    if w.holder.Some? || sender !in w.waiting then w
    else
      var call := Call(sender, w.waiting[sender]);
      w.(waiting := w.waiting - {sender}, holder := Some(Holder(call, 0)), granted := w.granted + [call])
  }

  function Write(w: Writers): Writers {
    if w.holder.None? || w.holder.value.stage >= 4 then w
    else
      var Holder(call, stage) := w.holder.value;
      w.(wire := w.wire + Part(call.frame, stage), holder := Some(Holder(call, stage + 1)))
  }

  function Release(w: Writers): Writers {
    if w.holder.Some? && w.holder.value.stage == 4 then w.(holder := None) else w
  }

  datatype WriterStep = DoSend(call: Call) | DoAcquire(sender: nat) | DoWrite | DoRelease

  function NextWriters(w: Writers, step: WriterStep): Writers {
    match step
    case DoSend(call) => Send(w, call)
    case DoAcquire(sender) => Acquire(w, sender)
    case DoWrite => Write(w)
    case DoRelease => Release(w)
  }

  /** What the lock holder has yet to write. */
  function Owed(w: Writers): Octets {
    match w.holder
    case None => []
    case Some(h) => if h.stage <= 4 then PartsFrom(h.call.frame, h.stage) else []
  }

  /** The wire and what its holder still owes it are whole frames, in the order of the lock. */
  predicate WireInv(w: Writers) {
    && w.wire + Owed(w) == WireOf(w.granted)
    && (w.holder.Some? ==>
          && w.holder.value.stage <= 4
          && w.granted != [] && w.granted[|w.granted| - 1] == w.holder.value.call)
  }

  /** No payload is too long for its length field: all the reader asks of the writers. */
  ghost predicate FitInv(w: Writers) {
    AllFit(w.granted) && forall x | x in w.waiting :: Fits(w.waiting[x])
  }

  /** Every call of a sender is written once, in the order it made them. */
  predicate OrderInv(w: Writers, sender: nat) {
    By(sender, w.called) == By(sender, w.granted) + Waiting(w, sender)
  }

  function Waiting(w: Writers, sender: nat): seq<Frame> {
    if sender in w.waiting then [w.waiting[sender]] else []
  }

  /** How a step of the writers moves the wire: what it writes is what is no longer owed, and what is newly
      owed are the frames newly granted. */
  predicate WireMoves(w: Writers, next: Writers, written: Octets, grants: seq<Call>) {
    && next.wire == w.wire + written
    && next.granted == w.granted + grants
    && written + Owed(next) == Owed(w) + WireOf(grants)
  }

  lemma SendKeeps(w: Writers, call: Call)
    requires WireInv(w)
    ensures WireInv(Send(w, call)) && WireMoves(w, Send(w, call), [], [])
  {
    NothingMoves(w);
  }

  lemma AcquireKeeps(w: Writers, sender: nat) returns (grants: seq<Call>)
    requires WireInv(w)
    ensures WireInv(Acquire(w, sender)) && WireMoves(w, Acquire(w, sender), [], grants)
  {
    NothingMoves(w);
    if w.holder.Some? || sender !in w.waiting {
      grants := [];
    } else {
      var call := Call(sender, w.waiting[sender]);
      grants := [call];
      PartsSplit(call.frame, 0);
      NewGrant(w.wire, w.granted, call);
    }
  }

  lemma {:induction false} NewGrant(wire: Octets, granted: seq<Call>, call: Call)
    requires wire == WireOf(granted)
    ensures wire + PartsFrom(call.frame, 0) == WireOf(granted + [call])
    ensures [] + PartsFrom(call.frame, 0) == WireOf([call])
  {
    WireAppend(granted, [call]);
    OneCall(call);
    PartsSplit(call.frame, 0);
  }

  lemma WriteKeeps(w: Writers) returns (written: Octets)
    requires WireInv(w)
    ensures WireInv(Write(w)) && WireMoves(w, Write(w), written, [])
  {
    written := [];
    NothingMoves(w);
    if w.holder.Some? && w.holder.value.stage < 4 {
      var Holder(call, stage) := w.holder.value;
      written := Part(call.frame, stage);
      PartsSplit(call.frame, stage);
      Associative(w.wire, written, Owed(Write(w)));
    }
  }

  lemma ReleaseKeeps(w: Writers)
    requires WireInv(w)
    ensures WireInv(Release(w)) && WireMoves(w, Release(w), [], [])
  {
    NothingMoves(w);
  }

  lemma NothingMoves(w: Writers)
    ensures w.wire + [] == w.wire && w.granted + [] == w.granted
    ensures Owed(w) + WireOf([]) == Owed(w) && [] + Owed(w) == Owed(w)
  {
  }

  lemma OrderKeeps(w: Writers, step: WriterStep, sender: nat)
    requires OrderInv(w, sender)
    ensures OrderInv(NextWriters(w, step), sender)
  {
    match step
    case DoSend(call) =>
      ByAppend(sender, w.called, [call]);
      OneCall(call);
    case DoAcquire(x) =>
      if w.holder.None? && x in w.waiting {
        var call := Call(x, w.waiting[x]);
        ByAppend(sender, w.granted, [call]);
        OneCall(call);
      }
    case _ =>
  }

  lemma FitKeeps(w: Writers, step: WriterStep)
    requires FitInv(w) && (step.DoSend? ==> Fits(step.call.frame))
    ensures FitInv(NextWriters(w, step))
  {
  }

  // ---------------------------------------------------------------- the reader

  /** How many octets have reached the reader and how many it has taken in whole frames, and its queues; and
      for the record the number of frames routed, and for every registered channel how many had been routed
      when it was registered and which payloads its owner has received since. */
  datatype Reader = Reader(
    arrived: nat,
    consumed: nat,
    queues: Queues,
    routed: nat,
    since: map<U16, nat>,
    received: Queues)

  function Transmit(r: Reader, wire: Octets, octets: nat): Reader {
    if r.arrived + octets <= |wire| then r.(arrived := r.arrived + octets) else r
  }

  function Unread(r: Reader, wire: Octets): Octets {
    if r.consumed <= r.arrived <= |wire| then wire[r.consumed..r.arrived] else []
  }

  function RouteOne(r: Reader, wire: Octets): Reader {
    match ReadFrame(Unread(r, wire))
    case None => r
    case Some(Read(a, n)) =>
      r.(consumed := r.consumed + n, queues := Route(r.queues, a), routed := r.routed + 1)
  }

  function Register(r: Reader, i: U16): Reader {
    r.(queues := r.queues[i := []], since := r.since[i := r.routed], received := r.received[i := []])
  }

  function Unregister(r: Reader, i: U16): Reader {
    r.(queues := r.queues - {i}, since := r.since - {i}, received := r.received - {i})
  }

  function Receive(r: Reader, i: U16): Reader {
    if i in r.queues && i in r.received && r.queues[i] != [] then
      r.(queues := r.queues[i := r.queues[i][1..]], received := r.received[i := r.received[i] + [r.queues[i][0]]])
    else r
  }

  /** The reader has taken whole frames in the order of the lock: what is left of the wire, and what is owed
      to it, are the others. */
  ghost predicate ReaderInv(r: Reader, w: Writers) {
    && r.consumed <= r.arrived <= |w.wire|
    && r.routed <= |w.granted|
    && w.wire[r.consumed..] + Owed(w) == WireOf(w.granted[r.routed..])
  }

  /** Everything sent to a registered channel and routed since was received by its owner or is queued. */
  predicate ChannelInv(r: Reader, granted: seq<Call>, i: U16) {
    && (i in r.queues <==> i in r.since) && (i in r.queues <==> i in r.received)
    && r.routed <= |granted|
    && (i in r.queues ==>
          && r.since[i] <= r.routed
          && r.received[i] + r.queues[i] == PayloadsSent(Flip(i), granted[r.since[i]..r.routed]))
  }

  lemma {:induction false} AheadMoves(
    left: Octets, owed: Octets, ahead: seq<Call>, written: Octets, owedThen: Octets, grants: seq<Call>)
    requires left + owed == WireOf(ahead) && written + owedThen == owed + WireOf(grants)
    ensures (left + written) + owedThen == WireOf(ahead + grants)
  {
    WireAppend(ahead, grants);
    Associative(left, written, owedThen);
    Associative(left, owed, WireOf(grants));
  }

  /** The reader keeps up with whatever the writers do. */
  lemma WritersMove(r: Reader, w: Writers, next: Writers, written: Octets, grants: seq<Call>)
    requires ReaderInv(r, w) && WireMoves(w, next, written, grants)
    ensures ReaderInv(r, next)
  {
    var left, ahead := w.wire[r.consumed..], w.granted[r.routed..];
    DropAppended(w.wire, written, r.consumed);
    DropAppended(w.granted, grants, r.routed);
    AheadMoves(left, Owed(w), ahead, written, Owed(next), grants);
  }

  lemma DropAppended<T>(a: seq<T>, b: seq<T>, n: nat)
    requires n <= |a|
    ensures (a + b)[n..] == a[n..] + b
  {
  }

  lemma GrantsMove(r: Reader, granted: seq<Call>, grants: seq<Call>, i: U16)
    requires ChannelInv(r, granted, i)
    ensures ChannelInv(r, granted + grants, i)
  {
    if i in r.queues {
      assert (granted + grants)[r.since[i]..r.routed] == granted[r.since[i]..r.routed];
    }
  }

  /** A whole frame in front of octets to come is the next one in the order of the lock. */
  lemma FrameFound(data: Octets, rest: Octets, ahead: seq<Call>) returns (n: nat)
    requires data + rest == WireOf(ahead) && AllFit(ahead) && ReadFrame(data).Some?
    ensures ahead != [] && n <= |data|
    ensures ReadFrame(data) == Some(Read(ArrivalOf(ahead[0]), n))
    ensures data[n..] + rest == WireOf(ahead[1..])
  {
    ReadStable(data, rest);
    assert ahead != [];
    var frame, others := EncodeFrame(ahead[0].frame), WireOf(ahead[1..]);
    FrameExact(ahead[0].frame, others);
    n := |frame|;
    assert n <= |data|;
    DropFront(data, rest, frame, others);
  }

  lemma DropFront(data: Octets, rest: Octets, frame: Octets, others: Octets)
    requires data + rest == frame + others && |frame| <= |data|
    ensures data[|frame|..] + rest == others
  {
    assert (frame + others)[|frame|..] == others;
    assert (data + rest)[|frame|..] == data[|frame|..] + rest;
  }

  /** And once the next frame is there in full it is found. */
  lemma {:induction false} FrameReadable(data: Octets, rest: Octets, ahead: seq<Call>)
    requires data + rest == WireOf(ahead) && AllFit(ahead) && ahead != []
    requires |data| >= |EncodeFrame(ahead[0].frame)|
    ensures ReadFrame(data).Some?
  {
    var frame := EncodeFrame(ahead[0].frame);
    assert (data + rest)[..|frame|] == data[..|frame|];
    assert (frame + WireOf(ahead[1..]))[..|frame|] == frame;
    assert data == frame + data[|frame|..];
    FrameExact(ahead[0].frame, data[|frame|..]);
  }

  lemma UnreadAhead(r: Reader, w: Writers)
    requires FitInv(w) && ReaderInv(r, w)
    ensures Unread(r, w.wire) + (w.wire[r.arrived..] + Owed(w)) == WireOf(w.granted[r.routed..])
    ensures AllFit(w.granted[r.routed..])
  {
    CutAt(w.wire, r.consumed, r.arrived, Owed(w));
  }

  lemma CutAt(wire: Octets, from: nat, to: nat, owed: Octets)
    requires from <= to <= |wire|
    ensures wire[from..to] + (wire[to..] + owed) == wire[from..] + owed
  {
    assert wire[from..] == wire[from..to] + wire[to..];
  }

  lemma RouteKeepsReader(r: Reader, w: Writers)
    requires FitInv(w) && ReaderInv(r, w)
    ensures ReaderInv(RouteOne(r, w.wire), w)
  {
    hide ReadFrame, Owed, WireOf, FitInv, AllFit;
    if ReadFrame(Unread(r, w.wire)).Some? {
      var n := FrameConsumed(r, w);
      var next := RouteOne(r, w.wire);
      assert next.consumed == r.consumed + n && next.routed == r.routed + 1 && next.arrived == r.arrived;
    }
  }

  lemma RouteKeepsChannel(r: Reader, w: Writers, i: U16)
    requires FitInv(w) && ReaderInv(r, w) && ChannelInv(r, w.granted, i)
    ensures ChannelInv(RouteOne(r, w.wire), w.granted, i)
  {
    hide ReadFrame, Owed, WireOf, FitInv, AllFit;
    if ReadFrame(Unread(r, w.wire)).Some? {
      var n := FrameConsumed(r, w);
      OneMoreSent(r, w.granted, i);
    }
  }

  /** Routing takes the next frame of the lock's order off the wire. */
  lemma FrameConsumed(r: Reader, w: Writers) returns (n: nat)
    requires FitInv(w) && ReaderInv(r, w) && ReadFrame(Unread(r, w.wire)).Some?
    ensures r.routed < |w.granted|
    ensures ReadFrame(Unread(r, w.wire)) == Some(Read(ArrivalOf(w.granted[r.routed]), n))
    ensures r.consumed + n <= r.arrived
    ensures w.wire[r.consumed + n..] + Owed(w) == WireOf(w.granted[r.routed + 1..])
  {
    hide ReadFrame, WireOf, Owed, FitInv, AllFit, ArrivalOf;
    UnreadAhead(r, w);
    n := FrameFound(Unread(r, w.wire), w.wire[r.arrived..] + Owed(w), w.granted[r.routed..]);
    DropTwice(w.granted, r.routed, 1);
    CutWithin(w.wire, r.consumed, r.arrived, n, Owed(w));
  }

  lemma DropTwice<T>(a: seq<T>, n: nat, m: nat)
    requires n + m <= |a|
    ensures a[n..][m..] == a[n + m..]
  {
  }

  lemma CutWithin(wire: Octets, from: nat, to: nat, n: nat, owed: Octets)
    requires from + n <= to <= |wire|
    ensures wire[from..to][n..] + (wire[to..] + owed) == wire[from + n..] + owed
  {
    assert wire[from..to][n..] == wire[from + n..to];
    CutAt(wire, from + n, to, owed);
  }

  /** Routing one frame appends its payload to the queue of its channel, and to no other. */
  lemma OneMoreSent(r: Reader, granted: seq<Call>, i: U16)
    requires ChannelInv(r, granted, i) && r.routed < |granted|
    ensures i in r.queues ==>
              r.received[i] + Route(r.queues, ArrivalOf(granted[r.routed]))[i] ==
              PayloadsSent(Flip(i), granted[r.since[i]..r.routed + 1])
  {
    if i in r.queues {
      var call := granted[r.routed];
      var before := granted[r.since[i]..r.routed];
      assert granted[r.since[i]..r.routed + 1] == before + [call];
      SentAppend(Flip(i), before, [call]);
      OneCall(call);
      FlipTwice(i);
      FlipTwice(call.frame.id);
      Associative(r.received[i], r.queues[i], [call.frame.payload]);
    }
  }

  lemma ReceiveKeeps(r: Reader, granted: seq<Call>, i: U16, j: U16)
    requires ChannelInv(r, granted, i)
    ensures ChannelInv(Receive(r, j), granted, i)
  {
    if i == j && i in r.queues && r.queues[i] != [] {
      var first, others := r.queues[i][0], r.queues[i][1..];
      assert r.queues[i] == [first] + others;
      Associative(r.received[i], [first], others);
    }
  }

  lemma RegisterKeeps(r: Reader, granted: seq<Call>, i: U16, j: U16)
    requires ChannelInv(r, granted, i)
    ensures ChannelInv(Register(r, j), granted, i) && ChannelInv(Unregister(r, j), granted, i)
  {
    assert granted[r.routed..r.routed] == [];
  }

  // ---------------------------------------------------------------- every schedule

  datatype Step =
    | Writing(step: WriterStep)
    | DoTransmit(octets: nat)
    | DoRoute
    | DoRegister(channel: U16)
    | DoUnregister(channel: U16)
    | DoReceive(channel: U16)

  datatype System = System(writers: Writers, reader: Reader)

  const START: System := System(Writers(map[], None, [], [], []), Reader(0, 0, map[], 0, map[], map[]))

  function Next(s: System, step: Step): System {
    match step
    case Writing(x) => s.(writers := NextWriters(s.writers, x))
    case DoTransmit(n) => s.(reader := Transmit(s.reader, s.writers.wire, n))
    case DoRoute => s.(reader := RouteOne(s.reader, s.writers.wire))
    case DoRegister(i) => s.(reader := Register(s.reader, i))
    case DoUnregister(i) => s.(reader := Unregister(s.reader, i))
    case DoReceive(i) => s.(reader := Receive(s.reader, i))
  }

  function Run(s: System, steps: seq<Step>): System
    decreases steps
  {
    if steps == [] then s else Run(Next(s, steps[0]), steps[1..])
  }

  lemma {:induction false} RunAppend(s: System, a: seq<Step>, b: seq<Step>)
    ensures Run(s, a + b) == Run(Run(s, a), b)
    decreases a
  {
    var c := a + b;
    if a == [] {
      assert c == b;
    } else {
      assert c[0] == a[0] && c[1..] == a[1..] + b;
      RunAppend(Next(s, a[0]), a[1..], b);
    }
  }

  /** The invariant, for one channel and one sender. */
  ghost predicate SystemInv(s: System, i: U16, sender: nat) {
    && WireInv(s.writers) && FitInv(s.writers) && OrderInv(s.writers, sender)
    && ReaderInv(s.reader, s.writers) && ChannelInv(s.reader, s.writers.granted, i)
  }

  predicate StepFits(step: Step) {
    step.Writing? && step.step.DoSend? ==> Fits(step.step.call.frame)
  }

  /** The calls of a schedule carry payloads that fit the length field. */
  ghost predicate SendsFit(steps: seq<Step>) {
    forall x | x in steps :: StepFits(x)
  }

  /** What a step of the writers writes and grants. */
  lemma WriterMoves(w: Writers, step: WriterStep) returns (written: Octets, grants: seq<Call>)
    requires WireInv(w)
    ensures WireInv(NextWriters(w, step)) && WireMoves(w, NextWriters(w, step), written, grants)
  {
    written, grants := [], [];
    match step {
      case DoSend(call) => SendKeeps(w, call);
      case DoAcquire(x) => grants := AcquireKeeps(w, x);
      case DoWrite => written := WriteKeeps(w);
      case DoRelease => ReleaseKeeps(w);
    }
  }

  lemma WritingKeeps(s: System, step: WriterStep, i: U16)
    requires WireInv(s.writers) && ReaderInv(s.reader, s.writers) && ChannelInv(s.reader, s.writers.granted, i)
    ensures var w := NextWriters(s.writers, step);
            WireInv(w) && ReaderInv(s.reader, w) && ChannelInv(s.reader, w.granted, i)
  {
    var w := s.writers;
    var written, grants := WriterMoves(w, step);
    WritersMove(s.reader, w, NextWriters(w, step), written, grants);
    GrantsMove(s.reader, w.granted, grants, i);
  }

  lemma NextKeeps(s: System, step: Step, i: U16, sender: nat)
    requires SystemInv(s, i, sender) && StepFits(step)
    ensures SystemInv(Next(s, step), i, sender)
  {
    match step
    case Writing(x) =>
      WritingKeeps(s, x, i);
      FitKeeps(s.writers, x);
      OrderKeeps(s.writers, x, sender);
    case DoTransmit(n) =>
    case DoRoute =>
      RouteKeepsReader(s.reader, s.writers);
      RouteKeepsChannel(s.reader, s.writers, i);
    case DoRegister(j) => RegisterKeeps(s.reader, s.writers.granted, i, j);
    case DoUnregister(j) => RegisterKeeps(s.reader, s.writers.granted, i, j);
    case DoReceive(j) => ReceiveKeeps(s.reader, s.writers.granted, i, j);
  }

  lemma {:induction false} RunKeeps(s: System, steps: seq<Step>, i: U16, sender: nat)
    requires SystemInv(s, i, sender) && SendsFit(steps)
    ensures SystemInv(Run(s, steps), i, sender)
    decreases steps
  {
    if steps != [] {
      assert steps[0] in steps;
      NextKeeps(s, steps[0], i, sender);
      RunKeeps(Next(s, steps[0]), steps[1..], i, sender);
    }
  }

  lemma {:induction false} ReachableInv(steps: seq<Step>, i: U16, sender: nat)
    requires SendsFit(steps)
    ensures SystemInv(Run(START, steps), i, sender)
  {
    assert SystemInv(START, i, sender);
    RunKeeps(START, steps, i, sender);
  }

  lemma {:induction false} WritersKeep(s: System, steps: seq<Step>, sender: nat)
    requires WireInv(s.writers) && OrderInv(s.writers, sender)
    ensures WireInv(Run(s, steps).writers) && OrderInv(Run(s, steps).writers, sender)
    decreases steps
  {
    if steps != [] {
      if steps[0].Writing? {
        var written, grants := WriterMoves(s.writers, steps[0].step);
        OrderKeeps(s.writers, steps[0].step, sender);
      }
      WritersKeep(Next(s, steps[0]), steps[1..], sender);
    }
  }

  /** Frames are atomic under any number of senders: in every schedule the wire holds whole frames, in the
      order their senders got the lock, plus at most the first parts of one frame, the lock holder's. With
      the lock free it is what the same calls would have written one at a time; and of the calls a sender
      made, exactly those not still waiting are there, in its order. Payloads may have any length. */
  lemma {:induction false} FramesAreAtomic(steps: seq<Step>, sender: nat)
    ensures var w := Run(START, steps).writers;
            && (w.holder.None? ==> w.wire == WireOf(w.granted))
            && (w.holder.Some? ==>
                  var h := w.holder.value;
                  var n := |w.granted| - 1;
                  n >= 0 && h.stage <= 4 && w.granted[n] == h.call
                  && w.wire == WireOf(w.granted[..n]) + PartsTo(h.call.frame, h.stage))
            && By(sender, w.called) == By(sender, w.granted) + Waiting(w, sender)
  {
    WritersKeep(START, steps, sender);
    var w := Run(START, steps).writers;
    if w.holder.Some? {
      PartialFrame(w);
    } else {
      assert w.wire + [] == w.wire;
    }
  }

  lemma PartialFrame(w: Writers)
    requires WireInv(w) && w.holder.Some?
    ensures var n := |w.granted| - 1;
            w.wire == WireOf(w.granted[..n]) + PartsTo(w.holder.value.call.frame, w.holder.value.stage)
  {
    var Holder(call, stage) := w.holder.value;
    var n := |w.granted| - 1;
    assert w.granted == w.granted[..n] + [call];
    WireAppend(w.granted[..n], [call]);
    OneCall(call);
    PartsSplit(call.frame, stage);
    CancelRight(w.wire, WireOf(w.granted[..n]), PartsTo(call.frame, stage), Owed(w));
  }

  lemma CancelRight(a: Octets, b: Octets, c: Octets, d: Octets)
    requires a + d == b + (c + d)
    ensures a == b + c
  {
    Associative(b, c, d);
    assert (a + d)[..|a|] == a && ((b + c) + d)[..|b + c|] == b + c;
  }

  /** The reader never keeps a whole frame waiting: when no frame can be routed, less than the next one has
      arrived. */
  lemma {:induction false} NoFrameIsKept(steps: seq<Step>)
    requires SendsFit(steps)
    ensures var Reader(arrived, consumed, _, routed, _, _) := Run(START, steps).reader;
            var w := Run(START, steps).writers;
            && consumed <= arrived <= |w.wire| && routed <= |w.granted|
            && (ReadFrame(w.wire[consumed..arrived]).None? && routed < |w.granted| ==>
                  arrived - consumed < |EncodeFrame(w.granted[routed].frame)|)
  {
    ReachableInv(steps, 0, 0);
    var r, w := Run(START, steps).reader, Run(START, steps).writers;
    if r.routed < |w.granted| && r.arrived - r.consumed >= |EncodeFrame(w.granted[r.routed].frame)| {
      UnreadAhead(r, w);
      FrameReadable(Unread(r, w.wire), w.wire[r.arrived..] + Owed(w), w.granted[r.routed..]);
    }
  }

  /** No step registers or unregisters the channel. */
  predicate LeavesAlone(steps: seq<Step>, i: U16) {
    DoRegister(i) !in steps && DoUnregister(i) !in steps
  }

  lemma {:induction false} StaysRegistered(s: System, steps: seq<Step>, i: U16)
    requires LeavesAlone(steps, i)
    ensures var (r, t) := (s.reader, Run(s, steps).reader);
            && (i in t.queues <==> i in r.queues) && (i in t.received <==> i in r.received)
            && (i in r.since ==> i in t.since && t.since[i] == r.since[i])
    decreases steps
  {
    if steps != [] {
      assert steps[0] != DoRegister(i) && steps[0] != DoUnregister(i);
      assert forall x | x in steps[1..] :: x in steps;
      StaysRegistered(Next(s, steps[0]), steps[1..], i);
    }
  }

  lemma {:induction false} RunAround(before: seq<Step>, step: Step, after: seq<Step>)
    ensures Run(START, before + [step] + after) == Run(Next(Run(START, before), step), after)
  {
    RunAppend(START, before + [step], after);
    RunAppend(START, before, [step]);
    assert [step][1..] == [];
    assert Run(Next(Run(START, before), step), []) == Next(Run(START, before), step);
  }

  /** The demultiplexer refines one queue per channel: in every schedule in which a channel is registered, with
      anything before, and left registered, it is registered, and what its owner received and what is queued
      for it are the payloads the peer sent on the flipped channel in the frames routed since, all of them, in
      the order of the wire. */
  lemma {:induction false} DemuxIsFifo(before: seq<Step>, after: seq<Step>, i: U16)
    requires SendsFit(before) && SendsFit(after) && LeavesAlone(after, i)
    ensures var System(w, r) := Run(START, before + [DoRegister(i)] + after);
            var n := Run(START, before).reader.routed;
            && i in r.queues && i in r.received
            && n <= r.routed <= |w.granted|
            && r.received[i] + r.queues[i] == PayloadsSent(Flip(i), w.granted[n..r.routed])
  {
    var registered := Next(Run(START, before), DoRegister(i));
    assert StepFits(DoRegister(i));
    RunAround(before, DoRegister(i), after);
    StaysRegistered(registered, after, i);
    ReachableInv(before + [DoRegister(i)] + after, i, 0);
  }

  /** And once a channel is unregistered it is gone: its frames are dropped, until it is registered again. */
  lemma {:induction false} UnregisteredIsGone(before: seq<Step>, after: seq<Step>, i: U16)
    requires LeavesAlone(after, i)
    ensures var r := Run(START, before + [DoUnregister(i)] + after).reader;
            i !in r.queues && i !in r.received
  {
    RunAround(before, DoUnregister(i), after);
    StaysRegistered(Next(Run(START, before), DoUnregister(i)), after, i);
  }

  // ---------------------------------------------------------------- the methods of a connection

  /** One call of send while the lock is free: the call is made, gets the lock, does its four writes and gives
      the lock back, which is what the method Connection.Send does at once. */
  lemma SendIsFourWrites(w: Writers, call: Call)
    requires w.holder.None? && call.sender !in w.waiting
    ensures Release(Write(Write(Write(Write(Acquire(Send(w, call), call.sender)))))) ==
            w.(called := w.called + [call], granted := w.granted + [call], wire := w.wire + EncodeFrame(call.frame))
  {
    var f := call.frame;
    assert w.waiting[call.sender := f] - {call.sender} == w.waiting;
    Associative(w.wire, Part(f, 0), Part(f, 1));
    Associative(w.wire, Part(f, 0) + Part(f, 1), Part(f, 2));
    Associative(w.wire, Part(f, 0) + Part(f, 1) + Part(f, 2), Part(f, 3));
  }

  /** Routing one frame after another until less than a whole one is left. */
  function RouteReady(r: Reader, wire: Octets): Reader
    requires r.consumed <= r.arrived <= |wire|
    decreases r.arrived - r.consumed
  {
    if ReadFrame(Unread(r, wire)).None? then r else RouteReady(RouteOne(r, wire), wire)
  }

  /** The steps of the reader, taken while one is possible, do what the method Connection.RunDemux does with
      the octets that have arrived: same queues, same octets left. */
  lemma {:induction false} RunDemuxIsRouting(r: Reader, wire: Octets)
    requires r.consumed <= r.arrived <= |wire|
    ensures var (end, unpacked) := (RouteReady(r, wire), Unpack(Unread(r, wire)));
            && end.queues == RouteAll(r.queues, unpacked.arrivals)
            && end.consumed == r.consumed + unpacked.used && end.arrived == r.arrived
            && end.routed == r.routed + |unpacked.arrivals|
            && Unread(end, wire) == Mux.Unread(Unread(r, wire))
    decreases r.arrived - r.consumed
  {
    var data := Unread(r, wire);
    if ReadFrame(data).Some? {
      var next, n := RouteOne(r, wire), ReadFrame(data).value.used;
      assert data[n..] == Unread(next, wire);
      UnpackStep(data);
      RunDemuxIsRouting(next, wire);
    }
  }
}

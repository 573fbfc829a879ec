/** The Chain-Sync mini-protocol: its messages, the client's session and the calls of its interface. */
module ChainSync {
  import opened Bytes
  import opened Cbor
  import opened MessageStream
  import opened Values

  datatype State = Idle | Intersecting | CanAwait | MustReply | Done

  datatype Message =
    | RequestNext
    | AwaitReply
    | RollForward(header: Octets, tip: Tip)
    | RollBackward(point: Point, tip: Tip)
    | FindIntersect(points: seq<Point>)
    | IntersectFound(point: Point, tip: Tip)
    | IntersectNotFound(tip: Tip)
    | Finished

  function PointsToFields(points: seq<Point>): (fields: Fields)
    ensures |fields| == |points|
  {
    if points == [] then [] else [Array(PointToFields(points[0]))] + PointsToFields(points[1..])
  }

  function ToValues(m: Message): Fields {
    match m
    case RequestNext => [Integer(0)]
    case AwaitReply => [Integer(1)]
    case RollForward(header, tip) =>
      [Integer(2), Array([Integer(0), Value.Bytes(header)]), Array(TipToFields(tip))]
    case RollBackward(point, tip) => [Integer(3), Array(PointToFields(point)), Array(TipToFields(tip))]
    case FindIntersect(points) => [Integer(4), Array(PointsToFields(points))]
    case IntersectFound(point, tip) => [Integer(5), Array(PointToFields(point)), Array(TipToFields(tip))]
    case IntersectNotFound(tip) => [Integer(6), Array(TipToFields(tip))]
    case Finished => [Integer(7)]
  }

  /** The octets in a wrapped header; the era number before them is dropped. */
  function HeaderFromFields(fields: Fields): Option<Octets> {
    if |fields| == 2 && fields[0].Integer? && fields[1].Bytes? then Some(fields[1].octets) else None
  }

  /** A list of points. The loop that reads it takes the first item that is not an array off the cursor before
      it asks for the end, so one such item at the end goes unnoticed. */
  function PointsFromFields(fields: Fields): Option<seq<Point>> {
    if fields == [] then Some([])
    else if !fields[0].Array? then if |fields| == 1 then Some([]) else None
    else
      match PointFromFields(fields[0].items)
      case None => None
      case Some(p) => Preceded(p, PointsFromFields(fields[1..]))
  }

  function Preceded(p: Point, rest: Option<seq<Point>>): Option<seq<Point>> {
    match rest case None => None case Some(points) => Some([p] + points)
  }

  /** What a list of fields means, if anything. */
  function FromValues(fields: Fields): Option<Message> {
    match IntegerAt(fields)
    case None => None
    case Some(tag) =>
      if tag == 0 && |fields| == 1 then Some(RequestNext)
      else if tag == 1 && |fields| == 1 then Some(AwaitReply)
      else if tag == 2 && |fields| == 3 && fields[1].Array? && fields[2].Array? then
        match (HeaderFromFields(fields[1].items), TipFromFields(fields[2].items))
        case (Some(header), Some(tip)) => Some(RollForward(header, tip))
        case _ => None
      else if (tag == 3 || tag == 5) && |fields| == 3 && fields[1].Array? && fields[2].Array? then
        match (PointFromFields(fields[1].items), TipFromFields(fields[2].items))
        case (Some(point), Some(tip)) => Some(if tag == 3 then RollBackward(point, tip) else IntersectFound(point, tip))
        case _ => None
      else if tag == 4 && |fields| == 2 && fields[1].Array? then
        match PointsFromFields(fields[1].items)
        case Some(points) => Some(FindIntersect(points))
        case None => None
      else if tag == 6 && |fields| == 2 && fields[1].Array? then
        match TipFromFields(fields[1].items)
        case Some(tip) => Some(IntersectNotFound(tip))
        case None => None
      else if tag == 7 && |fields| == 1 then Some(Finished)
      else None
  }

  // ---------------------------------------------------------------- reading with the cursor

  function After(points: seq<Point>, rest: Option<seq<Point>>): Option<seq<Point>> {
    match rest case None => None case Some(more) => Some(points + more)
  }

  lemma NothingBefore(rest: Option<seq<Point>>)
    ensures After([], rest) == rest
  {
    if rest.Some? {
      assert [] + rest.value == rest.value;
    }
  }

  lemma AfterOneMore(points: seq<Point>, p: Point, rest: Option<seq<Point>>)
    ensures After(points, Preceded(p, rest)) == After(points + [p], rest)
  {
    if rest.Some? {
      Associative(points, [p], rest.value);
    }
  }

  /** Where the loop over the points stands: item is the list it looks at, if any. */
  ghost predicate Reading(fields: Fields, points: seq<Point>, item: Option<Fields>, rest: Fields) {
    PointsFromFields(fields) ==
      match item
      case Some(point) => After(points, PointsFromFields([Array(point)] + rest))
      case None => if rest == [] then Some(points) else None
  }

  lemma ReadingStarts(fields: Fields)
    ensures Reading(fields, [], ArrayAt(fields), Tail(fields))
  {
    NothingBefore(PointsFromFields(fields));
    if fields != [] {
      assert fields == [fields[0]] + fields[1..];
    }
  }

  lemma {:induction false} ReadingGoesOn(fields: Fields, points: seq<Point>, item: Fields, rest: Fields)
    requires Reading(fields, points, Some(item), rest)
    ensures match PointFromFields(item)
            case None => PointsFromFields(fields) == None
            case Some(p) => Reading(fields, points + [p], ArrayAt(rest), Tail(rest))
  {
    assert ([Array(item)] + rest)[1..] == rest;
    match PointFromFields(item)
    case None =>
    case Some(p) =>
      AfterOneMore(points, p, PointsFromFields(rest));
      assert points + [p] + [] == points + [p];
      if rest != [] {
        assert rest == [rest[0]] + rest[1..];
      }
  }

  method ReadPoints(fields: Fields) returns (r: Option<seq<Point>>)
    ensures r == PointsFromFields(fields)
  {
    var points: seq<Point> := [];
    var items := new Cursor(fields);
    var item := items.Items();
    ReadingStarts(fields);
    while item.Some?
      invariant items.Valid() && Reading(fields, points, item, items.Rest())
      decreases |items.Rest()|, item.Some?
    {
      ReadingGoesOn(fields, points, item.value, items.Rest());
      var p := ReadPoint(item.value);
      if p.None? {
        return None;
      }
      points := points + [p.value];
      item := items.Items();
    }
    var ended := items.End();
    return if ended then Some(points) else None;
  }

  method ReadHeader(fields: Fields) returns (r: Option<Octets>)
    ensures r == HeaderFromFields(fields)
  {
    var cursor := new Cursor(fields);
    var era := cursor.Integer();
    if era.None? { return None; }
    var header := cursor.ByteString();
    if header.None? { return None; }
    var ended := cursor.End();
    return if ended then header else None;
  }

  /** A point and a tip, the fields of two messages. */
  method ReadPointAndTip(cursor: Cursor) returns (r: Option<(Point, Tip)>)
    requires cursor.Valid()
    modifies cursor
    ensures r == PointAndTip(old(cursor.Rest()))
    ensures r.Some? ==> cursor.Valid() && cursor.Rest() == old(cursor.Rest())[2..]
  {
    var items := cursor.Items();
    if items.None? { return None; }
    var point := ReadPoint(items.value);
    if point.None? { return None; }
    items := cursor.Items();
    if items.None? { return None; }
    var tip := ReadTip(items.value);
    if tip.None? { return None; }
    return Some((point.value, tip.value));
  }

  function PointAndTip(fields: Fields): Option<(Point, Tip)> {
    if |fields| >= 2 && fields[0].Array? && fields[1].Array? then
      match (PointFromFields(fields[0].items), TipFromFields(fields[1].items))
      case (Some(point), Some(tip)) => Some((point, tip))
      case _ => None
    else None
  }

  /** Reads a message field by field; any error is None. */
  method FromIter(fields: Fields) returns (r: Option<Message>)
    ensures r == FromValues(fields)
  {
    var cursor := new Cursor(fields);
    var tag := cursor.Integer();
    if tag.None? { return None; }
    var message: Message;
    if tag.value == 0 {
      message := RequestNext;
    } else if tag.value == 1 {
      message := AwaitReply;
    } else if tag.value == 2 {
      var items := cursor.Items();
      if items.None? { return None; }
      var header := ReadHeader(items.value);
      if header.None? { return None; }
      items := cursor.Items();
      if items.None? { return None; }
      var tip := ReadTip(items.value);
      if tip.None? { return None; }
      message := RollForward(header.value, tip.value);
    } else if tag.value == 3 || tag.value == 5 {
      var both := ReadPointAndTip(cursor);
      if both.None? { return None; }
      var (point, tip) := both.value;
      message := if tag.value == 3 then RollBackward(point, tip) else IntersectFound(point, tip);
    } else if tag.value == 4 {
      var items := cursor.Items();
      if items.None? { return None; }
      var points := ReadPoints(items.value);
      if points.None? { return None; }
      message := FindIntersect(points.value);
    } else if tag.value == 6 {
      var items := cursor.Items();
      if items.None? { return None; }
      var tip := ReadTip(items.value);
      if tip.None? { return None; }
      message := IntersectNotFound(tip.value);
    } else if tag.value == 7 {
      message := Finished;
    } else {
      return None;
    }
    var ended := cursor.End();
    return if ended then Some(message) else None;
  }

  // ---------------------------------------------------------------- the codec

  lemma {:induction false} PointsRoundTrip(points: seq<Point>)
    ensures PointsFromFields(PointsToFields(points)) == Some(points)
  {
    if points != [] {
      PointExact(points[0], []);
      PointsRoundTrip(points[1..]);
      assert PointsToFields(points)[1..] == PointsToFields(points[1..]);
      assert [points[0]] + points[1..] == points;
    }
  }

  lemma CodecRoundTrip(m: Message)
    ensures FromValues(ToValues(m)) == Some(m)
  {
    match m
    case RollForward(_, tip) => TipRoundTrip(tip);
    case RollBackward(point, tip) => PointExact(point, []); TipRoundTrip(tip);
    case IntersectFound(point, tip) => PointExact(point, []); TipRoundTrip(tip);
    case IntersectNotFound(tip) => TipRoundTrip(tip);
    case FindIntersect(points) => PointsRoundTrip(points);
    case _ =>
  }

  /** The other direction fails: a stray item after the points and the era number of a header are dropped. */
  lemma DecodingForgets()
    ensures FromValues([Integer(4), Array([Null])]) == Some(FindIntersect([]))
    ensures ToValues(FindIntersect([])) != [Integer(4), Array([Null])]
    ensures var fields := [Integer(2), Array([Integer(1), Value.Bytes([])]), Array(TipToFields(Tip(0, 0, [])))];
            && FromValues(fields) == Some(RollForward([], Tip(0, 0, [])))
            && ToValues(RollForward([], Tip(0, 0, []))) != fields
  {
    TipRoundTrip(Tip(0, 0, []));
    assert ToValues(FindIntersect([]))[1] == Array([]);
    assert ToValues(RollForward([], Tip(0, 0, [])))[1].items[0] == Integer(0);
  }

  predicate PointFits(fields: Fields)
    requires PointFromFields(fields).Some?
  {
    0 <= fields[0].number < TWO64
  }

  predicate TipFits(fields: Fields)
    requires TipFromFields(fields).Some?
  {
    PointFits(fields[0].items) && -TWO63 <= fields[1].number < TWO63
  }

  predicate PointsFit(fields: Fields)
    requires PointsFromFields(fields).Some?
  {
    fields != [] ==> fields[0].Array? && PointFits(fields[0].items) && PointsFit(fields[1..])
  }

  /** Nothing was truncated or dropped in reading the fields. */
  predicate Lossless(fields: Fields)
    requires FromValues(fields).Some?
  {
    var tag := fields[0].number;
    if tag == 2 then fields[1].items[0].number == 0 && TipFits(fields[2].items)
    else if tag == 3 || tag == 5 then PointFits(fields[1].items) && TipFits(fields[2].items)
    else if tag == 4 then PointsFit(fields[1].items)
    else if tag == 6 then TipFits(fields[1].items)
    else true
  }

  lemma TipExact(t: Tip, fields: Fields)
    requires TipFromFields(fields) == Some(t)
    ensures TipToFields(t) == fields <==> TipFits(fields)
  {
    PointExact(Point(t.slotNumber, t.hash), fields[0].items);
    assert fields == [fields[0], fields[1]];
    assert TipToFields(t)[0].items == PointToFields(Point(t.slotNumber, t.hash));
  }

  lemma {:induction false} PointsExact(points: seq<Point>, fields: Fields)
    requires PointsFromFields(fields) == Some(points)
    ensures PointsToFields(points) == fields <==> PointsFit(fields)
    decreases fields
  {
    if fields != [] && fields[0].Array? {
      PointExact(points[0], fields[0].items);
      assert points[1..] == PointsFromFields(fields[1..]).value;
      PointsExact(points[1..], fields[1..]);
      assert fields == [fields[0]] + fields[1..];
      assert PointsToFields(points)[1..] == PointsToFields(points[1..]);
    }
  }

  /** Accepted fields come back from their message precisely when nothing was lost. */
  lemma CodecExact(m: Message, fields: Fields)
    requires FromValues(fields) == Some(m)
    ensures ToValues(m) == fields <==> Lossless(fields)
  {
    match m
    case RollForward(header, tip) =>
      TipExact(tip, fields[2].items);
      assert fields == [fields[0], fields[1], fields[2]];
      assert fields[1].items == [fields[1].items[0], fields[1].items[1]];
      assert ToValues(m)[1].items[0] == Integer(0);
      assert ToValues(m)[2].items == TipToFields(tip);
    case RollBackward(point, tip) => ExactPair(fields, point, tip);
    case IntersectFound(point, tip) => ExactPair(fields, point, tip);
    case IntersectNotFound(tip) =>
      TipExact(tip, fields[1].items);
      assert fields == [fields[0], fields[1]];
      assert ToValues(m)[1].items == TipToFields(tip);
    case FindIntersect(points) =>
      PointsExact(points, fields[1].items);
      assert fields == [fields[0], fields[1]];
      assert ToValues(m)[1].items == PointsToFields(points);
    case _ =>
      assert fields == [fields[0]];
  }

  lemma ExactPair(fields: Fields, point: Point, tip: Tip)
    requires |fields| == 3 && fields[0].Integer? && fields[1].Array? && fields[2].Array?
    requires PointFromFields(fields[1].items) == Some(point) && TipFromFields(fields[2].items) == Some(tip)
    ensures [fields[0], Array(PointToFields(point)), Array(TipToFields(tip))] == fields
       <==> PointFits(fields[1].items) && TipFits(fields[2].items)
  {
    PointExact(point, fields[1].items);
    TipExact(tip, fields[2].items);
    var again := [fields[0], Array(PointToFields(point)), Array(TipToFields(tip))];
    assert again[1].items == PointToFields(point) && again[2].items == TipToFields(tip);
    assert fields == [fields[0], fields[1], fields[2]];
  }

  /** The byte strings and lists of a message have lengths that CBOR can write. */
  predicate Sized(m: Message) {
    match m
    case RollForward(header, tip) => |header| < TWO64 && |tip.hash| < TWO64
    case RollBackward(point, tip) => |point.hash| < TWO64 && |tip.hash| < TWO64
    case IntersectFound(point, tip) => |point.hash| < TWO64 && |tip.hash| < TWO64
    case IntersectNotFound(tip) => |tip.hash| < TWO64
    case FindIntersect(points) => |points| < TWO64 && forall p | p in points :: |p.hash| < TWO64
    case _ => true
  }

  lemma {:induction false} PointsEncodable(points: seq<Point>)
    requires forall p | p in points :: |p.hash| < TWO64
    ensures forall x | x in PointsToFields(points) :: Encodable(x)
  {
    if points != [] {
      assert points[0] in points;
      PointEncodable(points[0]);
      PointsEncodable(points[1..]);
    }
  }

  lemma Encodes(m: Message)
    requires Sized(m)
    ensures EncodableMessage(ToValues(m))
  {
    match m
    case RollForward(header, tip) =>
      TipEncodable(tip);
      assert forall x | x in [Integer(0), Value.Bytes(header)] :: Encodable(x);
      assert forall x | x in ToValues(m) :: Encodable(x);
    case RollBackward(point, tip) =>
      PointEncodable(point);
      TipEncodable(tip);
      assert forall x | x in ToValues(m) :: Encodable(x);
    case IntersectFound(point, tip) =>
      PointEncodable(point);
      TipEncodable(tip);
      assert forall x | x in ToValues(m) :: Encodable(x);
    case IntersectNotFound(tip) =>
      TipEncodable(tip);
      assert forall x | x in ToValues(m) :: Encodable(x);
    case FindIntersect(points) =>
      PointsEncodable(points);
      assert forall x | x in ToValues(m) :: Encodable(x);
    case _ =>
      assert forall x | x in ToValues(m) :: Encodable(x);
  }

  /** Every message survives the way through its octets, whatever follows them. */
  lemma OctetsRoundTrip(m: Message, t: Octets)
    requires Sized(m)
    ensures EncodableMessage(ToValues(m))
    ensures var s := EncodeMessage(ToValues(m));
            var o := DecodeMessage(s + t);
            o.Done? && o.used == |s| && FromValues(o.value) == Some(m)
  {
    Encodes(m);
    MessageRoundTrip(ToValues(m), t);
    CodecRoundTrip(m);
  }

  // ---------------------------------------------------------------- frame size

  function PointsLength(points: seq<Point>): nat
    requires forall p | p in points :: |p.hash| < TWO64
  {
    if points == [] then 0 else PointLength(points[0]) + PointsLength(points[1..])
  }

  lemma {:induction false} PointsTake(points: seq<Point>)
    requires forall p | p in points :: |p.hash| < TWO64
    ensures forall x | x in PointsToFields(points) :: Encodable(x)
    ensures |EncodeItems(PointsToFields(points))| == PointsLength(points)
  {
    PointsEncodable(points);
    if points != [] {
      assert points[0] in points;
      PointEncodable(points[0]);
      PointsTake(points[1..]);
      assert PointsToFields(points)[1..] == PointsToFields(points[1..]);
    }
  }

  /** The exact length of a FindIntersect message, for lists of any length, slots and hashes. */
  lemma {:induction false} FindIntersectLength(points: seq<Point>)
    requires Sized(FindIntersect(points))
    ensures EncodableMessage(ToValues(FindIntersect(points)))
    ensures |EncodeMessage(ToValues(FindIntersect(points)))| == 2 + |EncodeHead(4, |points|)| + PointsLength(points)
  {
    Encodes(FindIntersect(points));
    PointsTake(points);
    var fields := ToValues(FindIntersect(points));
    var list := fields[1];
    assert fields[1..] == [list] && fields[1..][1..] == [];
    assert EncodeItems([list]) == Encode(list) + EncodeItems([]);
    assert EncodeItems(fields) == Encode(Integer(4)) + EncodeItems(fields[1..]);
    assert |Encode(list)| == |EncodeHead(4, |points|)| + |EncodeItems(PointsToFields(points))|;
  }

  const HASH_LENGTH: nat := 32

  /** With hashes of 32 octets a point takes at most 44 octets, and exactly 44 if its slot needs 64 bits. */
  lemma {:induction false} PointsBound(points: seq<Point>)
    requires forall p | p in points :: |p.hash| == HASH_LENGTH
    ensures PointsLength(points) <= 44 * |points|
    ensures (forall p | p in points :: p.slot >= 0x1_0000_0000) ==> PointsLength(points) == 44 * |points|
  {
    if points != [] {
      assert points[0] in points;
      PointsBound(points[1..]);
    }
  }

  /** Up to 1489 points with hashes of 32 octets fit one frame whatever their slots; longer lists with large
      slots do not, however long they are. */
  lemma FrameBound(points: seq<Point>)
    requires |points| < TWO64 && forall p | p in points :: |p.hash| == HASH_LENGTH
    ensures EncodableMessage(ToValues(FindIntersect(points)))
    ensures |points| <= 1489 ==> |EncodeMessage(ToValues(FindIntersect(points)))| <= 65535
    ensures |points| > 1489 && (forall p | p in points :: p.slot >= 0x1_0000_0000) ==>
              |EncodeMessage(ToValues(FindIntersect(points)))| > 65535
  {
    FindIntersectLength(points);
    PointsBound(points);
  }
}

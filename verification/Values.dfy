/** The cursor over the fields of a message, and the conversions the mini-protocols share. */
module Values {
  import opened Bytes
  import opened Cbor
  import opened MessageStream

  const TWO63: int := 0x8000_0000_0000_0000

  type U16 = x: int | 0 <= x < 0x1_0000
  type U32 = x: int | 0 <= x < 0x1_0000_0000
  type U64 = x: int | 0 <= x < TWO64
  type I64 = x: int | -TWO63 <= x < TWO63

  // The truncating casts of the source.

  function AsU16(i: int): U16 { i % 0x1_0000 }

  function AsU32(i: int): U32 { i % 0x1_0000_0000 }

  function AsU64(i: int): U64 { i % TWO64 }

  function AsI64(i: int): I64 {
    if i % TWO64 < TWO63 then i % TWO64 else i % TWO64 - TWO64
  }

  /** They keep the number up to a multiple of 2 to the width, which with their range determines them. */
  lemma CastsTruncate(i: int)
    ensures exists k :: AsU16(i) == i + k * 0x1_0000
    ensures exists k :: AsU32(i) == i + k * 0x1_0000_0000
    ensures exists k :: AsU64(i) == i + k * TWO64
    ensures exists k :: AsI64(i) == i + k * TWO64
  {
    assert AsU16(i) == i + (-(i / 0x1_0000)) * 0x1_0000;
    assert AsU32(i) == i + (-(i / 0x1_0000_0000)) * 0x1_0000_0000;
    assert AsU64(i) == i + (-(i / TWO64)) * TWO64;
    if i % TWO64 < TWO63 {
      assert AsI64(i) == i + (-(i / TWO64)) * TWO64;
    } else {
      assert AsI64(i) == i + (-(i / TWO64) - 1) * TWO64;
    }
  }

  /** The source's exclusive or with 0x8000: the direction of a channel, and the family of a version. */
  function Flip(id: U16): (r: U16)
    ensures r != id && (r < 0x8000 <==> id >= 0x8000)
  {
    if id >= 0x8000 then id - 0x8000 else id + 0x8000
  }

  lemma FlipTwice(id: U16)
    ensures Flip(Flip(id)) == id
  {
  }

  /** An iterator over fields. Taking a field of the wrong type fails and still moves past it. */
  class Cursor {
    const fields: Fields
    var position: nat

    ghost predicate Valid()
      reads this
    {
      position <= |fields|
    }

    function Rest(): Fields
      requires Valid()
      reads this
    {
      fields[position..]
    }

    constructor (fields: Fields)
      ensures Valid() && Rest() == fields && this.fields == fields && position == 0
    {
      this.fields := fields;
      position := 0;
    }

    method Next() returns (r: Option<Value>)
      requires Valid()
      modifies this
      ensures Valid()
      ensures old(Rest()) == [] ==> r == None && Rest() == []
      ensures old(Rest()) != [] ==> r == Some(old(Rest())[0]) && Rest() == old(Rest())[1..]
    {
      if position == |fields| {
        return None;
      }
      r := Some(fields[position]);
      position := position + 1;
    }

    method Integer() returns (r: Option<int>)
      requires Valid()
      modifies this
      ensures Valid() && Rest() == Tail(old(Rest()))
      ensures r == IntegerAt(old(Rest()))
    {
      var v := Next();
      return if v.Some? && v.value.Integer? then Some(v.value.number) else None;
    }

    method ByteString() returns (r: Option<Octets>)
      requires Valid()
      modifies this
      ensures Valid() && Rest() == Tail(old(Rest()))
      ensures r == BytesAt(old(Rest()))
    {
      var v := Next();
      return if v.Some? && v.value.Bytes? then Some(v.value.octets) else None;
    }

    method Items() returns (r: Option<Fields>)
      requires Valid()
      modifies this
      ensures Valid() && Rest() == Tail(old(Rest()))
      ensures r == ArrayAt(old(Rest()))
    {
      var v := Next();
      return if v.Some? && v.value.Array? then Some(v.value.items) else None;
    }

    method Boolean() returns (r: Option<bool>)
      requires Valid()
      modifies this
      ensures Valid() && Rest() == Tail(old(Rest()))
      ensures r == BoolAt(old(Rest()))
    {
      var v := Next();
      return if v.Some? && v.value.Bool? then Some(v.value.flag) else None;
    }

    method Entries() returns (r: Option<Fields>)
      requires Valid()
      modifies this
      ensures Valid() && Rest() == Tail(old(Rest()))
      ensures r == MapAt(old(Rest()))
    {
      var v := Next();
      return if v.Some? && v.value.Map? then Some(v.value.keysAndValues) else None;
    }

    method End() returns (ok: bool)
      requires Valid()
      modifies this
      ensures ok <==> old(Rest()) == []
    {
      var v := Next();
      return v.None?;
    }
  }

  function Tail(fields: Fields): Fields {
    if fields == [] then [] else fields[1..]
  }

  function IntegerAt(fields: Fields): Option<int> {
    if fields != [] && fields[0].Integer? then Some(fields[0].number) else None
  }

  function BytesAt(fields: Fields): Option<Octets> {
    if fields != [] && fields[0].Bytes? then Some(fields[0].octets) else None
  }

  function ArrayAt(fields: Fields): Option<Fields> {
    if fields != [] && fields[0].Array? then Some(fields[0].items) else None
  }

  function BoolAt(fields: Fields): Option<bool> {
    if fields != [] && fields[0].Bool? then Some(fields[0].flag) else None
  }

  function MapAt(fields: Fields): Option<Fields> {
    if fields != [] && fields[0].Map? then Some(fields[0].keysAndValues) else None
  }

  // ---------------------------------------------------------------- points and tips

  datatype Point = Point(slot: U64, hash: Octets)

  datatype Tip = Tip(blockNumber: I64, slotNumber: U64, hash: Octets)

  function PointToFields(p: Point): Fields {
    [Integer(p.slot), Bytes(p.hash)]
  }

  function PointFromFields(fields: Fields): Option<Point> {
    if |fields| == 2 && fields[0].Integer? && fields[1].Bytes?
    then Some(Point(AsU64(fields[0].number), fields[1].octets))
    else None
  }

  method ReadPoint(fields: Fields) returns (r: Option<Point>)
    ensures r == PointFromFields(fields)
  {
    var cursor := new Cursor(fields);
    var slot := cursor.Integer();
    if slot.None? { return None; }
    var hash := cursor.ByteString();
    if hash.None? { return None; }
    var ended := cursor.End();
    if !ended { return None; }
    return Some(Point(AsU64(slot.value), hash.value));
  }

  function TipToFields(t: Tip): Fields {
    [Array([Integer(t.slotNumber), Bytes(t.hash)]), Integer(t.blockNumber)]
  }

  function TipFromFields(fields: Fields): Option<Tip> {
    if |fields| == 2 && fields[0].Array? && fields[1].Integer? then
      match PointFromFields(fields[0].items)
      case None => None
      case Some(p) => Some(Tip(AsI64(fields[1].number), p.slot, p.hash))
    else None
  }

  method ReadTip(fields: Fields) returns (r: Option<Tip>)
    ensures r == TipFromFields(fields)
  {
    var cursor := new Cursor(fields);
    var info := cursor.Items();
    if info.None? { return None; }
    var point := ReadPoint(info.value);
    if point.None? { return None; }
    var blockNumber := cursor.Integer();
    if blockNumber.None? { return None; }
    var ended := cursor.End();
    if !ended { return None; }
    return Some(Tip(AsI64(blockNumber.value), point.value.slot, point.value.hash));
  }

  /** Points come back from their fields, and only fields whose slot fits 64 bits come back from a point. */
  lemma PointExact(p: Point, fields: Fields)
    ensures PointFromFields(PointToFields(p)) == Some(p)
    ensures PointFromFields(fields) == Some(p) ==> (PointToFields(p) == fields <==> 0 <= fields[0].number < TWO64)
  {
    if PointFromFields(fields) == Some(p) && 0 <= fields[0].number < TWO64 {
      assert fields == [fields[0], fields[1]];
    }
  }

  lemma TipRoundTrip(t: Tip)
    ensures TipFromFields(TipToFields(t)) == Some(t)
  {
    PointExact(Point(t.slotNumber, t.hash), []);
  }

  /** The octets a point takes in a message. */
  function PointLength(p: Point): nat
    requires |p.hash| < TWO64
  {
    1 + |EncodeHead(0, p.slot)| + |EncodeHead(2, |p.hash|)| + |p.hash|
  }

  lemma PointEncodable(p: Point)
    requires |p.hash| < TWO64
    ensures Encodable(Array(PointToFields(p))) && |Encode(Array(PointToFields(p)))| == PointLength(p)
  {
    var fields := PointToFields(p);
    assert Encode(Integer(p.slot)) == EncodeHead(0, p.slot);
    assert fields[1..] == [Bytes(p.hash)] && fields[1..][1..] == [];
    assert EncodeItems(fields[1..]) == Encode(Bytes(p.hash)) + EncodeItems([]);
    assert EncodeItems(fields) == Encode(Integer(p.slot)) + EncodeItems(fields[1..]);
  }

  lemma TipEncodable(t: Tip)
    requires |t.hash| < TWO64
    ensures Encodable(Array(TipToFields(t)))
  {
    PointEncodable(Point(t.slotNumber, t.hash));
    assert TipToFields(t)[0] == Array(PointToFields(Point(t.slotNumber, t.hash)));
    assert Encodable(Integer(t.blockNumber));
  }
}

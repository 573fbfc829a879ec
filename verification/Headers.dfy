/** Block headers and their wrapped form. The hash of a header is taken over its wrapped octets by a function
    that stays a parameter. */
module Headers {
  import opened Bytes
  import opened Cbor
  import opened MessageStream
  import opened Values

  datatype BlockHeader = BlockHeader(
    blockNumber: I64,
    slotNumber: I64,
    hash: Octets,
    prevHash: Octets,
    nodeVkey: Octets,
    nodeVrfVkey: Octets,
    etaVrf0: Octets,
    etaVrf1: Octets,
    leaderVrf0: Octets,
    leaderVrf1: Octets,
    blockSize: I64,
    blockBodyHash: Octets,
    poolOpcert: Octets,
    unknown0: I64,
    unknown1: I64,
    unknown2: Octets,
    protocolMajorVersion: I64,
    protocolMinorVersion: I64)

  function Pair(a: Octets, b: Octets): Value {
    Array([Value.Bytes(a), Value.Bytes(b)])
  }

  function HeaderItems(h: BlockHeader): Fields {
    [ Integer(h.blockNumber),
      Integer(h.slotNumber),
      Value.Bytes(h.prevHash),
      Value.Bytes(h.nodeVkey),
      Value.Bytes(h.nodeVrfVkey),
      Pair(h.etaVrf0, h.etaVrf1),
      Pair(h.leaderVrf0, h.leaderVrf1),
      Integer(h.blockSize),
      Value.Bytes(h.blockBodyHash),
      Value.Bytes(h.poolOpcert),
      Integer(h.unknown0),
      Integer(h.unknown1),
      Value.Bytes(h.unknown2),
      Integer(h.protocolMajorVersion),
      Integer(h.protocolMinorVersion) ]
  }

  /** The octets of a header, unless some byte string is too long for CBOR. */
  function Wrap(h: BlockHeader): Option<Octets> {
    var fields := [Array(HeaderItems(h))];
    if EncodableMessage(fields) then Some(EncodeMessage(fields)) else None
  }

  predicate IsPair(v: Value) {
    v.Array? && |v.items| == 2 && v.items[0].Bytes? && v.items[1].Bytes?
  }

  predicate IsHeader(fields: Fields) {
    && |fields| == 1 && fields[0].Array?
    && var a := fields[0].items;
       && |a| == 15
       && a[0].Integer? && a[1].Integer?
       && a[2].Bytes? && a[3].Bytes? && a[4].Bytes?
       && IsPair(a[5]) && IsPair(a[6])
       && a[7].Integer?
       && a[8].Bytes? && a[9].Bytes?
       && a[10].Integer? && a[11].Integer?
       && a[12].Bytes?
       && a[13].Integer? && a[14].Integer?
  }

  function HeaderFrom(hash: Octets, fields: Fields): BlockHeader
    requires IsHeader(fields)
  {
    var a := fields[0].items;
    BlockHeader(
      AsI64(a[0].number), AsI64(a[1].number), hash,
      a[2].octets, a[3].octets, a[4].octets,
      a[5].items[0].octets, a[5].items[1].octets,
      a[6].items[0].octets, a[6].items[1].octets,
      AsI64(a[7].number), a[8].octets, a[9].octets,
      AsI64(a[10].number), AsI64(a[11].number), a[12].octets,
      AsI64(a[13].number), AsI64(a[14].number))
  }

  /** Two byte strings and nothing else. */
  method ReadPair(fields: Fields) returns (r: Option<(Octets, Octets)>)
    ensures r == if IsPair(Array(fields)) then Some((fields[0].octets, fields[1].octets)) else None
  {
    var cursor := new Cursor(fields);
    var a := cursor.ByteString();
    if a.None? { return None; }
    var b := cursor.ByteString();
    if b.None? { return None; }
    var ended := cursor.End();
    return if ended then Some((a.value, b.value)) else None;
  }

  /** The first seven items of a header, and the other eight. */
  datatype Front = Front(
    blockNumber: int,
    slotNumber: int,
    prevHash: Octets,
    nodeVkey: Octets,
    nodeVrfVkey: Octets,
    etaVrf: (Octets, Octets),
    leaderVrf: (Octets, Octets))

  datatype Back = Back(
    blockSize: int,
    blockBodyHash: Octets,
    poolOpcert: Octets,
    unknown0: int,
    unknown1: int,
    unknown2: Octets,
    major: int,
    minor: int)

  function FrontOf(a: Fields): Option<Front> {
    if |a| >= 7 && a[0].Integer? && a[1].Integer? && a[2].Bytes? && a[3].Bytes? && a[4].Bytes?
       && IsPair(a[5]) && IsPair(a[6])
    then Some(Front(a[0].number, a[1].number, a[2].octets, a[3].octets, a[4].octets,
                    (a[5].items[0].octets, a[5].items[1].octets), (a[6].items[0].octets, a[6].items[1].octets)))
    else None
  }

  function BackOf(a: Fields): Option<Back> {
    if |a| >= 15 && a[7].Integer? && a[8].Bytes? && a[9].Bytes? && a[10].Integer? && a[11].Integer? && a[12].Bytes?
       && a[13].Integer? && a[14].Integer?
    then Some(Back(a[7].number, a[8].octets, a[9].octets, a[10].number, a[11].number, a[12].octets,
                   a[13].number, a[14].number))
    else None
  }

  method ReadFront(cursor: Cursor) returns (r: Option<Front>)
    requires cursor.Valid() && cursor.position == 0
    modifies cursor
    ensures r == FrontOf(cursor.fields)
    ensures r.Some? ==> cursor.Valid() && cursor.position == 7
  {
    var blockNumber := cursor.Integer();
    if blockNumber.None? { return None; }
    var slotNumber := cursor.Integer();
    if slotNumber.None? { return None; }
    var prevHash := cursor.ByteString();
    if prevHash.None? { return None; }
    assert cursor.position == 3;
    var nodeVkey := cursor.ByteString();
    if nodeVkey.None? { return None; }
    var nodeVrfVkey := cursor.ByteString();
    if nodeVrfVkey.None? { return None; }
    assert cursor.position == 5;
    var pair := cursor.Items();
    if pair.None? { return None; }
    var etaVrf := ReadPair(pair.value);
    if etaVrf.None? { return None; }
    pair := cursor.Items();
    if pair.None? { return None; }
    var leaderVrf := ReadPair(pair.value);
    if leaderVrf.None? { return None; }
    return Some(Front(blockNumber.value, slotNumber.value, prevHash.value, nodeVkey.value, nodeVrfVkey.value,
                      etaVrf.value, leaderVrf.value));
  }

  method ReadBack(cursor: Cursor) returns (r: Option<Back>)
    requires cursor.Valid() && cursor.position == 7
    modifies cursor
    ensures r == BackOf(cursor.fields)
    ensures r.Some? ==> cursor.Valid() && cursor.position == 15
  {
    var blockSize := cursor.Integer();
    if blockSize.None? { return None; }
    var blockBodyHash := cursor.ByteString();
    if blockBodyHash.None? { return None; }
    var poolOpcert := cursor.ByteString();
    if poolOpcert.None? { return None; }
    assert cursor.position == 10;
    var unknown0 := cursor.Integer();
    if unknown0.None? { return None; }
    var unknown1 := cursor.Integer();
    if unknown1.None? { return None; }
    var unknown2 := cursor.ByteString();
    if unknown2.None? { return None; }
    assert cursor.position == 13;
    var major := cursor.Integer();
    if major.None? { return None; }
    var minor := cursor.Integer();
    if minor.None? { return None; }
    return Some(Back(blockSize.value, blockBodyHash.value, poolOpcert.value,
                     unknown0.value, unknown1.value, unknown2.value, major.value, minor.value));
  }

  /** Item after item, each of the right type, and nothing after the last. */
  method ReadHeader(hash: Octets, fields: Fields) returns (r: Option<BlockHeader>)
    ensures r == if IsHeader(fields) then Some(HeaderFrom(hash, fields)) else None
  {
    var outer := new Cursor(fields);
    var items := outer.Items();
    if items.None? { return None; }
    var cursor := new Cursor(items.value);
    var front := ReadFront(cursor);
    if front.None? { return None; }
    var back := ReadBack(cursor);
    if back.None? { return None; }
    var ended := cursor.End();
    if !ended { return None; }
    ended := outer.End();
    if !ended { return None; }
    var (f, b) := (front.value, back.value);
    return Some(BlockHeader(
      AsI64(f.blockNumber), AsI64(f.slotNumber), hash,
      f.prevHash, f.nodeVkey, f.nodeVrfVkey, f.etaVrf.0, f.etaVrf.1, f.leaderVrf.0, f.leaderVrf.1,
      AsI64(b.blockSize), b.blockBodyHash, b.poolOpcert,
      AsI64(b.unknown0), AsI64(b.unknown1), b.unknown2, AsI64(b.major), AsI64(b.minor)));
  }

  /** The header in wrapped octets, which must be one array and nothing after it. */
  function Unwrap(H: Octets -> Octets, bytes: Octets): Option<BlockHeader> {
    match DecodeMessage(bytes)
    case Incomplete => None
    case Malformed => None
    case Done(fields, used) =>
      if used == |bytes| && IsHeader(fields) then Some(HeaderFrom(H(bytes), fields)) else None
  }

  lemma FieldsRoundTrip(h: BlockHeader, hash: Octets)
    ensures IsHeader([Array(HeaderItems(h))])
    ensures HeaderFrom(hash, [Array(HeaderItems(h))]) == h.(hash := hash)
  {
  }

  /** Wrapping and unwrapping gives the header back, except that its hash is that of the octets. */
  lemma HeaderRoundTrip(H: Octets -> Octets, h: BlockHeader)
    requires Wrap(h).Some?
    ensures Unwrap(H, Wrap(h).value) == Some(h.(hash := H(Wrap(h).value)))
  {
    var fields := [Array(HeaderItems(h))];
    MessageRoundTrip(fields, []);
    assert Wrap(h).value + [] == Wrap(h).value;
    FieldsRoundTrip(h, H(Wrap(h).value));
  }

  /** The hash a header came with has no part in it: wrapping what was unwrapped changes nothing any more. */
  lemma WrapFixpoint(H: Octets -> Octets, h: BlockHeader, hash: Octets)
    requires Wrap(h).Some?
    ensures Wrap(h.(hash := hash)) == Wrap(h)
    ensures var again := Unwrap(H, Wrap(h).value); again.Some? && Wrap(again.value) == Wrap(h)
  {
    assert HeaderItems(h.(hash := hash)) == HeaderItems(h);
    HeaderRoundTrip(H, h);
    assert HeaderItems(h.(hash := H(Wrap(h).value))) == HeaderItems(h);
  }

  /** The integers of a header, all of which fit 64 bits. */
  predicate IntegersFit(fields: Fields)
    requires IsHeader(fields)
  {
    var a := fields[0].items;
    forall i | 0 <= i < 15 && a[i].Integer? :: -TWO63 <= a[i].number < TWO63
  }

  /** Octets that are read as a header hold nothing but its fifteen items, each in its place: they would be written
      as the same fields, exactly if no integer was truncated. */
  lemma HeaderExact(H: Octets -> Octets, bytes: Octets)
    requires Unwrap(H, bytes).Some?
    ensures DecodeMessage(bytes).Done? && IsHeader(DecodeMessage(bytes).value)
    ensures var fields := DecodeMessage(bytes).value;
            && DecodeMessage(bytes).used == |bytes|
            && ([Array(HeaderItems(Unwrap(H, bytes).value))] == fields <==> IntegersFit(fields))
  {
    hide DecodeMessage;
    FieldsExact(DecodeMessage(bytes).value, H(bytes));
  }

  lemma FieldsExact(fields: Fields, hash: Octets)
    requires IsHeader(fields)
    ensures [Array(HeaderItems(HeaderFrom(hash, fields)))] == fields <==> IntegersFit(fields)
  {
    var a, b := fields[0].items, HeaderItems(HeaderFrom(hash, fields));
    PairExact(a[5]);
    PairExact(a[6]);
    forall i | 0 <= i < 15
      ensures b[i] == a[i] <==> (a[i].Integer? ==> -TWO63 <= a[i].number < TWO63)
    {
      ItemExact(fields, hash, i);
    }
    if IntegersFit(fields) {
      assert b == a;
      assert fields == [fields[0]];
    } else {
      var i :| 0 <= i < 15 && a[i].Integer? && !(-TWO63 <= a[i].number < TWO63);
      assert b[i] != a[i];
    }
  }

  lemma PairExact(v: Value)
    requires IsPair(v)
    ensures Pair(v.items[0].octets, v.items[1].octets) == v
  {
    assert v.items == [v.items[0], v.items[1]];
  }

  lemma ItemExact(fields: Fields, hash: Octets, i: nat)
    requires IsHeader(fields) && i < 15
    ensures var a := fields[0].items;
            HeaderItems(HeaderFrom(hash, fields))[i] == a[i] <==>
            (a[i].Integer? ==> -TWO63 <= a[i].number < TWO63)
  {
    var a := fields[0].items;
    PairExact(a[5]);
    PairExact(a[6]);
  }

  predicate HeaderSized(h: BlockHeader) {
    && |h.prevHash| < TWO64 && |h.nodeVkey| < TWO64 && |h.nodeVrfVkey| < TWO64
    && |h.etaVrf0| < TWO64 && |h.etaVrf1| < TWO64 && |h.leaderVrf0| < TWO64 && |h.leaderVrf1| < TWO64
    && |h.blockBodyHash| < TWO64 && |h.poolOpcert| < TWO64 && |h.unknown2| < TWO64
  }

  lemma PairEncodable(a: Octets, b: Octets)
    requires |a| < TWO64 && |b| < TWO64
    ensures Encodable(Pair(a, b))
  {
    assert forall x | x in [Value.Bytes(a), Value.Bytes(b)] :: Encodable(x);
  }

  lemma ItemEncodable(h: BlockHeader, i: nat)
    requires HeaderSized(h) && i < 15
    ensures Encodable(HeaderItems(h)[i])
  {
    if i == 5 {
      PairEncodable(h.etaVrf0, h.etaVrf1);
    } else if i == 6 {
      PairEncodable(h.leaderVrf0, h.leaderVrf1);
    }
  }

  /** Every header whose byte strings have 64-bit lengths can be wrapped. */
  lemma WrapSucceeds(h: BlockHeader)
    requires HeaderSized(h)
    ensures Wrap(h).Some?
  {
    var items := HeaderItems(h);
    forall i | 0 <= i < |items| ensures Encodable(items[i]) {
      ItemEncodable(h, i);
    }
    AllEncodable(items);
    AllEncodable([Array(items)]);
  }

  lemma AllEncodable(fields: Fields)
    requires |fields| < TWO64 && forall i | 0 <= i < |fields| :: Encodable(fields[i])
    ensures EncodableMessage(fields)
  {
  }
}

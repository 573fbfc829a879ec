/** The messages this library sends fit the frames it sends them in, so the length field loses nothing and
    each arrives whole. */
module FrameSizes {
  import opened Bytes
  import opened Cbor
  import opened MessageStream
  import opened Values
  import opened Mux
  import Versions
  import Handshake
  import BlockFetch
  import ChainSync

  /** The peer's reader finds exactly this message in the frame it was sent in, on its side of the channel. */
  ghost predicate ArrivesWhole(id: U16, fields: Fields) {
    && EncodableMessage(fields)
    && var payload := EncodeMessage(fields);
       && ScanMessages(payload) == Scan([fields], |payload|, true)
       && forall timestamp: U32, t: Octets ::
            var frame := EncodeFrame(Frame(timestamp, id, payload));
            ReadFrame(frame + t) == Some(Read(Arrival(Flip(id), payload), |frame|))
  }

  lemma ShortMessageArrives(id: U16, fields: Fields)
    requires EncodableMessage(fields)
    ensures ArrivesWhole(id, fields) <==> |EncodeMessage(fields)| <= MAX_PAYLOAD
  {
    var payload := EncodeMessage(fields);
    ScanOneMessage(fields, payload);
    forall timestamp: U32, t: Octets
      ensures var frame := EncodeFrame(Frame(timestamp, id, payload));
              ReadFrame(frame + t) == Some(Read(Arrival(Flip(id), payload), |frame|)) <==> |payload| <= MAX_PAYLOAD
    {
      FrameExact(Frame(timestamp, id, payload), t);
    }
    if ArrivesWhole(id, fields) {
      var frame := EncodeFrame(Frame(0, id, payload));
      assert ReadFrame(frame + []) == Some(Read(Arrival(Flip(id), payload), |frame|));
    }
  }

  lemma TwoItems(fields: Fields)
    requires |fields| == 2 && EncodableMessage(fields)
    ensures |EncodeMessage(fields)| == 1 + |Encode(fields[0])| + |Encode(fields[1])|
  {
    assert fields[1..][1..] == [];
    assert EncodeItems(fields[1..]) == Encode(fields[1]) + EncodeItems([]);
    assert EncodeItems(fields) == Encode(fields[0]) + EncodeItems(fields[1..]);
  }

  lemma ThreeItems(fields: Fields)
    requires |fields| == 3 && EncodableMessage(fields)
    ensures |EncodeMessage(fields)| == 1 + |Encode(fields[0])| + |Encode(fields[1])| + |Encode(fields[2])|
  {
    assert fields[1..][1..] == fields[2..] && fields[2..][1..] == [];
    assert EncodeItems(fields[2..]) == Encode(fields[2]) + EncodeItems([]);
    assert EncodeItems(fields[1..]) == Encode(fields[1]) + EncodeItems(fields[2..]);
    assert EncodeItems(fields) == Encode(fields[0]) + EncodeItems(fields[1..]);
  }

  /** Every proposal and every acceptance of supported versions. */
  lemma HandshakeArrives(s: Handshake.Session, id: U16)
    requires forall v | v in s.versions :: Versions.Supported(v)
    requires Handshake.Send(s).Some?
    ensures var fields := Handshake.ToValues(Handshake.Send(s).value.1);
            fields.Some? && ArrivesWhole(id, fields.value)
  {
    var m := Handshake.Send(s).value.1;
    match m
    case ProposeVersions(offers) =>
      assert Versions.AllSupported(offers);
      var back := Handshake.ProposalArrives(offers);
      Versions.MapEncodable(offers);
      var fields := Handshake.ToValues(m).value;
      TwoItems(fields);
      ShortMessageArrives(id, fields);
    case AcceptVersion(version, magic) =>
      assert Versions.Supported(version);
      Handshake.AcceptanceRoundTrip(version, magic);
      var fields := Handshake.ToValues(m).value;
      ThreeItems(fields);
      TwoItems(fields[2].items);
      ShortMessageArrives(id, fields);
  }

  /** A range request arrives whole exactly if its two points take at most 65533 octets together. */
  lemma RangeRequestArrives(first: Point, last: Point, id: U16)
    requires BlockFetch.Sized(BlockFetch.RequestRange(first, last))
    ensures ArrivesWhole(id, BlockFetch.ToValues(BlockFetch.RequestRange(first, last)))
       <==> PointLength(first) + PointLength(last) <= 65533
  {
    var fields := BlockFetch.ToValues(BlockFetch.RequestRange(first, last));
    BlockFetch.Encodes(BlockFetch.RequestRange(first, last));
    PointEncodable(first);
    PointEncodable(last);
    ThreeItems(fields);
    ShortMessageArrives(id, fields);
  }

  /** A FindIntersect arrives whole exactly if its list, with its head, takes at most 65533 octets. So up to 1489
      points with hashes of 32 octets do whatever their slots, and longer lists with large slots do not. */
  lemma {:induction false} FindIntersectArrives(points: seq<Point>, id: U16)
    requires ChainSync.Sized(ChainSync.FindIntersect(points))
    ensures ArrivesWhole(id, ChainSync.ToValues(ChainSync.FindIntersect(points)))
       <==> |EncodeHead(4, |points|)| + ChainSync.PointsLength(points) <= 65533
    ensures (forall p | p in points :: |p.hash| == ChainSync.HASH_LENGTH) && |points| <= 1489 ==>
              ArrivesWhole(id, ChainSync.ToValues(ChainSync.FindIntersect(points)))
    ensures |points| > 1489 &&
            (forall p | p in points :: |p.hash| == ChainSync.HASH_LENGTH && p.slot >= 0x1_0000_0000) ==>
              !ArrivesWhole(id, ChainSync.ToValues(ChainSync.FindIntersect(points)))
  {
    ChainSync.FindIntersectLength(points);
    ShortMessageArrives(id, ChainSync.ToValues(ChainSync.FindIntersect(points)));
    if forall p | p in points :: |p.hash| == ChainSync.HASH_LENGTH {
      ChainSync.FrameBound(points);
    }
  }
}

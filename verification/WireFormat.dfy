/** The octets on the wire, written out: examples of RFC 8949, a frame, a header and every message. */
module WireFormat {
  import opened Bytes
  import opened Cbor
  import opened MessageStream
  import opened Values
  import opened Mux
  import Headers
  import B = BlockFetch
  import C = ChainSync
  import H = Handshake
  import V = Versions

  // ---------------------------------------------------------------- values

  lemma {:induction false} FourOctets(x: nat)
    ensures BigEndian(x, 4) == [x / 256 / 256 / 256 % 256, x / 256 / 256 % 256, x / 256 % 256, x % 256]
  {
    var a, b, c := x / 256, x / 256 / 256, x / 256 / 256 / 256;
    assert BigEndian(c, 1) == BigEndian(c / 256, 0) + [c % 256];
    assert BigEndian(b, 2) == BigEndian(c, 1) + [b % 256];
    assert BigEndian(a, 3) == BigEndian(b, 2) + [a % 256];
    assert BigEndian(x, 4) == BigEndian(a, 3) + [x % 256];
  }

  lemma {:induction false} EightOctets(x: nat)
    ensures BigEndian(x, 8) ==
            BigEndian(x / 256 / 256 / 256 / 256, 4) +
            [x / 256 / 256 / 256 % 256, x / 256 / 256 % 256, x / 256 % 256, x % 256]
  {
    var a, b, c := x / 256, x / 256 / 256, x / 256 / 256 / 256;
    var d := BigEndian(c / 256, 4);
    assert BigEndian(c, 5) == d + [c % 256];
    assert BigEndian(b, 6) == BigEndian(c, 5) + [b % 256];
    assert BigEndian(a, 7) == BigEndian(b, 6) + [a % 256];
    assert BigEndian(x, 8) == BigEndian(a, 7) + [x % 256];
  }

  /** The head of an item, octet by octet: the major type in the high three bits, and the argument in the low five
      or, high octet first, in one, two, four or eight octets, the fewest that hold it. */
  lemma HeadOctets(major: nat, arg: nat)
    requires major < 8 && arg < TWO64
    ensures arg < 24 ==> EncodeHead(major, arg) == [major * 32 + arg]
    ensures 24 <= arg < 0x100 ==> EncodeHead(major, arg) == [major * 32 + 24, arg]
    ensures 0x100 <= arg < 0x1_0000 ==> EncodeHead(major, arg) == [major * 32 + 25, arg / 256, arg % 256]
    ensures 0x1_0000 <= arg < 0x1_0000_0000 ==>
              EncodeHead(major, arg) ==
              [major * 32 + 26, arg / 256 / 256 / 256, arg / 256 / 256 % 256, arg / 256 % 256, arg % 256]
    ensures 0x1_0000_0000 <= arg ==>
              var high := arg / 256 / 256 / 256 / 256;
              EncodeHead(major, arg) ==
              [major * 32 + 27,
               high / 256 / 256 / 256, high / 256 / 256 % 256, high / 256 % 256, high % 256,
               arg / 256 / 256 / 256 % 256, arg / 256 / 256 % 256, arg / 256 % 256, arg % 256]
  {
    if 24 <= arg < 0x100 {
      assert BigEndian(arg, 1) == BigEndian(arg / 256, 0) + [arg % 256];
    } else if 0x100 <= arg < 0x1_0000 {
      assert BigEndian(arg / 256, 1) == BigEndian(arg / 256 / 256, 0) + [arg / 256 % 256];
      assert BigEndian(arg, 2) == BigEndian(arg / 256, 1) + [arg % 256];
    } else if 0x1_0000 <= arg < 0x1_0000_0000 {
      FourOctets(arg);
    } else if 0x1_0000_0000 <= arg {
      EightOctets(arg);
      FourOctets(arg / 256 / 256 / 256 / 256);
    }
  }

  /** Examples of Appendix A of RFC 8949, and the limits of the widths. */
  lemma Integers()
    ensures Encode(Integer(0)) == [0x00] && Encode(Integer(23)) == [0x17]
    ensures Encode(Integer(24)) == [0x18, 0x18] && Encode(Integer(42)) == [0x18, 0x2a]
    ensures Encode(Integer(255)) == [0x18, 0xff] && Encode(Integer(256)) == [0x19, 0x01, 0x00]
    ensures Encode(Integer(1000)) == [0x19, 0x03, 0xe8] && Encode(Integer(65535)) == [0x19, 0xff, 0xff]
    ensures Encode(Integer(-1)) == [0x20] && Encode(Integer(-100)) == [0x38, 0x63]
    ensures Encode(Integer(-1000)) == [0x39, 0x03, 0xe7]
  {
    hide EncodeHead, BigEndian;
    HeadOctets(0, 0);
    HeadOctets(0, 23);
    HeadOctets(0, 24);
    HeadOctets(0, 42);
    HeadOctets(0, 255);
    HeadOctets(0, 256);
    HeadOctets(0, 1000);
    HeadOctets(0, 65535);
    HeadOctets(1, 0);
    HeadOctets(1, 99);
    HeadOctets(1, 999);
  }

  lemma WideIntegers()
    ensures Encode(Integer(0x1_0000)) == [0x1a, 0x00, 0x01, 0x00, 0x00]
    ensures Encode(Integer(1000000)) == [0x1a, 0x00, 0x0f, 0x42, 0x40]
    ensures Encode(Integer(0x1_0000_0000)) == [0x1b, 0x00, 0x00, 0x00, 0x01, 0x00, 0x00, 0x00, 0x00]
    ensures Encode(Integer(1000000000000)) == [0x1b, 0x00, 0x00, 0x00, 0xe8, 0xd4, 0xa5, 0x10, 0x00]
    ensures Encode(Integer(TWO64 - 1)) == [0x1b, 0xff, 0xff, 0xff, 0xff, 0xff, 0xff, 0xff, 0xff]
  {
    hide EncodeHead, BigEndian;
    HeadOctets(0, 0x1_0000);
    HeadOctets(0, 1000000);
    HeadOctets(0, 0x1_0000_0000);
    HeadOctets(0, 1000000000000);
    HeadOctets(0, TWO64 - 1);
  }

  /** The other values. */
  lemma Others()
    ensures Encode(Bool(false)) == [0xf4] && Encode(Bool(true)) == [0xf5] && Encode(Null) == [0xf6]
    ensures Encode(Value.Bytes([])) == [0x40] && Encode(Value.Bytes([1, 2, 3, 4])) == [0x44, 1, 2, 3, 4]
    ensures Encode(Text([])) == [0x60] && Encode(Text([0x61])) == [0x61, 0x61]
    ensures Encode(Array([])) == [0x80] && Encode(Map([])) == [0xa0]
  {
  }

  lemma Containers()
    ensures forall x | x in [Integer(1), Integer(2), Integer(3), Integer(4)] :: Encodable(x)
    ensures Encode(Array([Integer(1), Integer(2), Integer(3), Integer(4)])) == [0x84, 1, 2, 3, 4]
    ensures Encode(Map([Integer(1), Integer(2), Integer(3), Integer(4)])) == [0xa2, 1, 2, 3, 4]
  {
    hide Encode, EncodeItems, EncodeHead, Encodable;
    Small(1);
    Small(2);
    Small(3);
    Small(4);
    Items4(Integer(1), Integer(2), Integer(3), Integer(4));
  }

  /** Longer heads than the encoder writes are accepted, and undefined is read as null. */
  lemma LongerHeads()
    ensures Decode([0x18, 0x05]) == Done(Integer(5), 2) && Decode([0x19, 0x00, 0x05]) == Done(Integer(5), 3)
    ensures Decode([0xf7]) == Done(Null, 1)
  {
    assert [0x18, 0x05][1..2] == [0x05] && [0x05][..0] == [];
    assert FromBigEndian([0x05]) == FromBigEndian([]) * 256 + 5;
    assert [0x19, 0x00, 0x05][1..3] == [0x00, 0x05] && [0x00, 0x05][..1] == [0x00] && [0x00][..0] == [];
    assert FromBigEndian([0x00]) == FromBigEndian([]) * 256 + 0;
    assert FromBigEndian([0x00, 0x05]) == FromBigEndian([0x00]) * 256 + 5;
  }

  /** Heads without a meaning are errors at once, and octets that stop early are not. */
  lemma Unfinished()
    ensures Decode([0x1c]) == Malformed && Decode([0xff]) == Malformed
    ensures Decode([]) == Incomplete && Decode([0x18]) == Incomplete && Decode([0x42, 0x01]) == Incomplete
  {
  }

  /** An item that is no list is no message: a map as soon as its head is read, others when they are complete. */
  lemma NoMessages()
    ensures DecodeMessage([0x01]) == Malformed && DecodeMessage([0xa1]) == Malformed
    ensures DecodeMessage([0x41]) == Incomplete && DecodeMessage([0x81]) == Incomplete
    ensures DecodeMessage([0x80]) == Done([], 1)
  {
  }

  // ---------------------------------------------------------------- lists of a few values

  lemma Small(i: int)
    requires 0 <= i < 24
    ensures Encodable(Integer(i)) && Encode(Integer(i)) == [i]
  {
  }

  lemma SmallBytes(i: Byte)
    ensures Encodable(Value.Bytes([i])) && Encode(Value.Bytes([i])) == [0x41, i]
  {
  }

  /** A list of less than 24 values: its head is one octet. */
  lemma {:induction false} ShortList(items: seq<Value>)
    requires |items| < 24 && forall x | x in items :: Encodable(x)
    ensures Encodable(Array(items)) && Encode(Array(items)) == [0x80 + |items|] + EncodeItems(items)
  {
  }

  lemma {:induction false} Items1(a: Value)
    requires Encodable(a)
    ensures EncodeItems([a]) == Encode(a) && Encodable(Array([a])) && Encode(Array([a])) == [0x81] + Encode(a)
  {
    EncodeMore(a, []);
    assert [a] + [] == [a];
  }

  lemma {:induction false} Items2(a: Value, b: Value)
    requires Encodable(a) && Encodable(b)
    ensures EncodeItems([a, b]) == Encode(a) + Encode(b)
    ensures Encodable(Array([a, b])) && Encode(Array([a, b])) == [0x82] + (Encode(a) + Encode(b))
    ensures Encodable(Map([a, b])) && Encode(Map([a, b])) == [0xa1] + (Encode(a) + Encode(b))
  {
    Items1(b);
    EncodeMore(a, [b]);
    assert [a] + [b] == [a, b];
  }

  lemma {:induction false} Items3(a: Value, b: Value, c: Value)
    requires Encodable(a) && Encodable(b) && Encodable(c)
    ensures EncodeItems([a, b, c]) == Encode(a) + (Encode(b) + Encode(c))
    ensures Encodable(Array([a, b, c])) && Encode(Array([a, b, c])) == [0x83] + (Encode(a) + (Encode(b) + Encode(c)))
  {
    Items2(b, c);
    EncodeMore(a, [b, c]);
    assert [a] + [b, c] == [a, b, c];
  }

  lemma {:induction false} Items4(a: Value, b: Value, c: Value, d: Value)
    requires Encodable(a) && Encodable(b) && Encodable(c) && Encodable(d)
    ensures forall x | x in [a, b, c, d] :: Encodable(x)
    ensures EncodeItems([a, b, c, d]) == Encode(a) + (Encode(b) + (Encode(c) + Encode(d)))
    ensures Encodable(Array([a, b, c, d]))
    ensures Encode(Array([a, b, c, d])) == [0x84] + (Encode(a) + (Encode(b) + (Encode(c) + Encode(d))))
    ensures Encodable(Map([a, b, c, d]))
    ensures Encode(Map([a, b, c, d])) == [0xa2] + (Encode(a) + (Encode(b) + (Encode(c) + Encode(d))))
  {
    Items3(b, c, d);
    EncodeMore(a, [b, c, d]);
    assert [a] + [b, c, d] == [a, b, c, d];
  }

  // ---------------------------------------------------------------- frames

  /** A frame from the server on the channel of Block-Fetch, and what the client's reader makes of it. */
  lemma Frames()
    ensures var frame := Frame(0x01020304, 0x8003, [0xaa, 0xbb]);
            var octets := [0x01, 0x02, 0x03, 0x04, 0x80, 0x03, 0x00, 0x02, 0xaa, 0xbb];
            EncodeFrame(frame) == octets && ReadFrame(octets) == Some(Read(Arrival(3, [0xaa, 0xbb]), 10))
  {
    hide BigEndian, ReadFrame;
    var frame := Frame(0x01020304, 0x8003, [0xaa, 0xbb]);
    FourOctets(0x01020304);
    PairOfOctets(0x8003);
    PairOfOctets(2);
    FrameExact(frame, []);
    assert EncodeFrame(frame) + [] == EncodeFrame(frame);
  }

  lemma {:induction false} PairOfOctets(x: nat)
    ensures BigEndian(x, 2) == [x / 256 % 256, x % 256]
  {
    assert BigEndian(x / 256, 1) == BigEndian(x / 256 / 256, 0) + [x / 256 % 256];
  }

  // ---------------------------------------------------------------- messages

  const POINT: Point := Point(1, [2])
  const TIP: Tip := Tip(3, 4, [5])

  lemma PointsAndTips()
    ensures Encodable(Array(PointToFields(POINT))) && Encode(Array(PointToFields(POINT))) == [0x82, 0x01, 0x41, 0x02]
    ensures Encodable(Array(TipToFields(TIP)))
    ensures Encode(Array(TipToFields(TIP))) == [0x82, 0x82, 0x04, 0x41, 0x05, 0x03]
  {
    hide Encode, EncodeItems, EncodeHead, Encodable;
    Small(1);
    SmallBytes(2);
    Items2(Integer(1), Value.Bytes([2]));
    Small(4);
    SmallBytes(5);
    Items2(Integer(4), Value.Bytes([5]));
    Small(3);
    Items2(Array([Integer(4), Value.Bytes([5])]), Integer(3));
  }

  predicate Written(fields: Fields, octets: Octets) {
    EncodableMessage(fields) && EncodeMessage(fields) == octets
  }

  lemma BlockFetchMessages()
    ensures Written(B.ToValues(B.RequestRange(POINT, Point(6, [7]))),
                    [0x83, 0x00, 0x82, 0x01, 0x41, 0x02, 0x82, 0x06, 0x41, 0x07])
    ensures Written(B.ToValues(B.ClientDone), [0x81, 0x01])
    ensures Written(B.ToValues(B.StartBatch), [0x81, 0x02])
    ensures Written(B.ToValues(B.NoBlocks), [0x81, 0x03])
    ensures Written(B.ToValues(B.Block([8])), [0x82, 0x04, 0x41, 0x08])
    ensures Written(B.ToValues(B.BatchDone), [0x81, 0x05])
  {
    hide Encode, EncodeItems, EncodeHead, Encodable;
    SmallTags();
    PointsAndTips();
    Small(6);
    SmallBytes(7);
    Items2(Integer(6), Value.Bytes([7]));
    Items3(Integer(0), Array(PointToFields(POINT)), Array(PointToFields(Point(6, [7]))));
    SmallBytes(8);
    Items2(Integer(4), Value.Bytes([8]));
  }

  lemma SmallTags()
    ensures forall i | 0 <= i < 8 ::
              Encodable(Integer(i)) && Encode(Integer(i)) == [i]
              && Encodable(Array([Integer(i)])) && Encode(Array([Integer(i)])) == [0x81, i]
  {
    hide Encode, EncodeItems, EncodeHead, Encodable;
    forall i | 0 <= i < 8
      ensures Encodable(Integer(i)) && Encode(Integer(i)) == [i]
      ensures Encodable(Array([Integer(i)])) && Encode(Array([Integer(i)])) == [0x81, i]
    {
      Small(i);
      Items1(Integer(i));
    }
  }

  lemma ChainSyncMessages()
    ensures Written(C.ToValues(C.RequestNext), [0x81, 0x00])
    ensures Written(C.ToValues(C.AwaitReply), [0x81, 0x01])
    ensures Written(C.ToValues(C.FindIntersect([POINT, Point(6, [7])])),
                    [0x82, 0x04, 0x82, 0x82, 0x01, 0x41, 0x02, 0x82, 0x06, 0x41, 0x07])
    ensures Written(C.ToValues(C.Finished), [0x81, 0x07])
  {
    hide Encode, EncodeItems, EncodeHead, Encodable;
    SmallTags();
    TwoPoints();
  }

  lemma ChainSyncAnswers()
    ensures Written(C.ToValues(C.RollForward([9], TIP)),
                    [0x83, 0x02, 0x82, 0x00, 0x41, 0x09, 0x82, 0x82, 0x04, 0x41, 0x05, 0x03])
    ensures Written(C.ToValues(C.IntersectNotFound(TIP)), [0x82, 0x06, 0x82, 0x82, 0x04, 0x41, 0x05, 0x03])
  {
    hide Encode, EncodeItems, EncodeHead, Encodable, PointToFields, TipToFields;
    SmallTags();
    PointsAndTips();
    SmallBytes(9);
    Items2(Integer(0), Value.Bytes([9]));
    Items3(Integer(2), Array([Integer(0), Value.Bytes([9])]), Array(TipToFields(TIP)));
    Items2(Integer(6), Array(TipToFields(TIP)));
  }

  lemma ChainSyncPoints()
    ensures Written(C.ToValues(C.RollBackward(POINT, TIP)),
                    [0x83, 0x03, 0x82, 0x01, 0x41, 0x02, 0x82, 0x82, 0x04, 0x41, 0x05, 0x03])
    ensures Written(C.ToValues(C.IntersectFound(POINT, TIP)),
                    [0x83, 0x05, 0x82, 0x01, 0x41, 0x02, 0x82, 0x82, 0x04, 0x41, 0x05, 0x03])
  {
    hide Encode, EncodeItems, EncodeHead, Encodable, PointToFields, TipToFields;
    SmallTags();
    PointsAndTips();
    Items3(Integer(3), Array(PointToFields(POINT)), Array(TipToFields(TIP)));
    Items3(Integer(5), Array(PointToFields(POINT)), Array(TipToFields(TIP)));
  }

  lemma TwoPoints()
    ensures Written(C.ToValues(C.FindIntersect([POINT, Point(6, [7])])),
                    [0x82, 0x04, 0x82, 0x82, 0x01, 0x41, 0x02, 0x82, 0x06, 0x41, 0x07])
  {
    hide Encode, EncodeItems, EncodeHead, Encodable;
    var points := [POINT, Point(6, [7])];
    var a, b := Array(PointToFields(POINT)), Array(PointToFields(Point(6, [7])));
    PointsAndTips();
    Small(6);
    SmallBytes(7);
    Items2(Integer(6), Value.Bytes([7]));
    assert points[1..] == [Point(6, [7])] && points[1..][1..] == [];
    assert C.PointsToFields(points[1..]) == [b] + C.PointsToFields([]);
    assert C.PointsToFields(points) == [a, b];
    Items2(a, b);
    Small(4);
    Items2(Integer(4), Array([a, b]));
  }

  /** A magic of 1 and the flag, as newer versions carry them. */
  const MAGIC: Value := Array([Integer(1), Bool(false)])

  lemma MagicOctets()
    ensures Encodable(MAGIC) && Encode(MAGIC) == [0x82, 0x01, 0xf4]
  {
    hide Encode, EncodeItems, EncodeHead, Encodable;
    Small(1);
    Flag();
    Items2(Integer(1), Bool(false));
  }

  /** The two versions of a node, proposed and accepted. */
  lemma HandshakeMessages()
    ensures var proposal := H.ToValues(H.ProposeVersions([V.Offer(V.N2N(6), 1), V.Offer(V.N2N(7), 1)]));
            proposal.Some? && Written(proposal.value,
                                      [0x82, 0x00, 0xa2, 0x06, 0x82, 0x01, 0xf4, 0x07, 0x82, 0x01, 0xf4])
    ensures var acceptance := H.ToValues(H.AcceptVersion(V.N2N(7), 1));
            acceptance.Some? && Written(acceptance.value, [0x83, 0x01, 0x07, 0x82, 0x01, 0xf4])
  {
    hide Encode, EncodeItems, EncodeHead, Encodable, V.ToMap;
    SmallTags();
    MagicOctets();
    Items3(Integer(1), Integer(7), MAGIC);
    NodeMap();
    Items4(Integer(6), MAGIC, Integer(7), MAGIC);
    Items2(Integer(0), Map([Integer(6), MAGIC, Integer(7), MAGIC]));
  }

  /** What this library writes for a refusal. */
  lemma RefusalOctets()
    ensures var refusal := H.ToValues(H.Refuse);
            refusal.Some? && Written(refusal.value, [0x82, 0x01, 0x83, 0x02, 0x00,
                                                     0x68, 0x52, 0x65, 0x66, 0x75, 0x73, 0x65, 0x64, 0x2e])
  {
    hide Encode, EncodeItems, EncodeHead, Encodable;
    Small(0);
    Small(1);
    Small(2);
    RefusedText();
    Items3(Integer(2), Integer(0), Text(H.REFUSED));
    Items2(Integer(1), Array([Integer(2), Integer(0), Text(H.REFUSED)]));
  }

  lemma RefusedText()
    ensures Encodable(Text(H.REFUSED)) && Encode(Text(H.REFUSED)) == [0x68] + H.REFUSED
  {
  }

  lemma NodeMap()
    ensures V.ToMap([V.Offer(V.N2N(6), 1), V.Offer(V.N2N(7), 1)]) == Some([Integer(6), MAGIC, Integer(7), MAGIC])
  {
    var a, b := V.Offer(V.N2N(6), 1), V.Offer(V.N2N(7), 1);
    var six, seven := V.Pair(6, MAGIC), V.Pair(7, MAGIC);
    OnePair(b, seven, [], []);
    assert [b] + [] == [b] && [seven] + [] == [seven];
    OnePair(a, six, [b], [seven]);
    assert [a] + [b] == [a, b] && [six] + [seven] == [six, seven];
    V.CollectSorted([six, seven]);
    FlattenTwo(six, seven);
  }

  lemma Flag()
    ensures Encodable(Bool(false)) && Encode(Bool(false)) == [0xf4]
  {
  }

  lemma {:induction false} OnePair(o: V.Offer, p: V.Pair, offers: seq<V.Offer>, pairs: seq<V.Pair>)
    requires V.ToPair(o) == Some(p) && V.ToPairs(offers) == Some(pairs)
    ensures V.ToPairs([o] + offers) == Some([p] + pairs)
  {
    assert ([o] + offers)[1..] == offers;
  }

  lemma FlattenOne(a: V.Pair)
    ensures V.Flatten([a]) == [Integer(a.key), a.value]
  {
    assert [a][1..] == [];
    assert [Integer(a.key), a.value] + V.Flatten([]) == [Integer(a.key), a.value];
  }

  lemma FlattenTwo(a: V.Pair, b: V.Pair)
    ensures V.Flatten([a, b]) == [Integer(a.key), a.value, Integer(b.key), b.value]
  {
    FlattenOne(b);
    assert [a, b][1..] == [b];
  }

  lemma HighInteger()
    ensures Encodable(Integer(0x8009)) && Encode(Integer(0x8009)) == [0x19, 0x80, 0x09]
  {
    hide EncodeHead, BigEndian;
    HeadOctets(0, 0x8009);
  }

  /** The version of a client to a node: its number has the high bit set. */
  lemma ClientToNodeProposal()
    ensures var proposal := H.ToValues(H.ProposeVersions([V.Offer(V.C2N(9), 1)]));
            proposal.Some? && Written(proposal.value, [0x82, 0x00, 0xa1, 0x19, 0x80, 0x09, 0x01])
  {
    hide Encode, EncodeItems, EncodeHead, Encodable, V.ToMap;
    SmallTags();
    HighInteger();
    ClientMap();
    Items2(Integer(0x8009), Integer(1));
    Items2(Integer(0), Map([Integer(0x8009), Integer(1)]));
  }

  lemma ClientMap()
    ensures V.ToMap([V.Offer(V.C2N(9), 1)]) == Some([Integer(0x8009), Integer(1)])
  {
    var offer, nine := V.Offer(V.C2N(9), 1), V.Pair(0x8009, Integer(1));
    OnePair(offer, nine, [], []);
    assert [offer] + [] == [offer] && [nine] + [] == [nine];
    V.CollectSorted([nine]);
    FlattenOne(nine);
  }

  // ---------------------------------------------------------------- headers

  const HEADER: Headers.BlockHeader := Headers.BlockHeader(
    1, 2, [99], [3], [4], [5], [6], [7], [8], [9], 10, [11], [12], 13, 14, [15], 16, 17)

  const HEADER_OCTETS: Octets := [
    1, 2, 0x41, 3, 0x41, 4, 0x41, 5, 0x82, 0x41, 6, 0x41, 7, 0x82, 0x41, 8, 0x41, 9,
    10, 0x41, 11, 0x41, 12, 13, 14, 0x41, 15, 16, 17]

  /** A header with its fifteen items in their order; its own hash is not one of them. */
  lemma HeaderOctets()
    ensures Headers.Wrap(HEADER) == Some([0x81, 0x8f] + HEADER_OCTETS)
  {
    hide Encode, EncodeItems, EncodeHead, Encodable, Headers.HeaderItems;
    var items := Headers.HeaderItems(HEADER);
    HeaderItemOctets();
    ShortList(items);
    Items1(Array(items));
    assert [0x81] + ([0x8f] + HEADER_OCTETS) == [0x81, 0x8f] + HEADER_OCTETS;
  }

  lemma HeaderItemOctets()
    ensures var items := Headers.HeaderItems(HEADER);
            |items| == 15 && (forall x | x in items :: Encodable(x)) && EncodeItems(items) == HEADER_OCTETS
  {
    hide Encode, EncodeItems, EncodeHead, Encodable, Headers.HeaderItems;
    var items := Headers.HeaderItems(HEADER);
    HeaderParts();
    EncodeAppend(items[..5], items[5..10]);
    EncodeAppend(items[..10], items[10..]);
    assert items[..5] + items[5..10] == items[..10] && items[..10] + items[10..] == items;
  }

  lemma HeaderParts()
    ensures var items := Headers.HeaderItems(HEADER);
            && |items| == 15
            && (forall x | x in items[..5] :: Encodable(x))
            && (forall x | x in items[5..10] :: Encodable(x))
            && (forall x | x in items[10..] :: Encodable(x))
            && EncodeItems(items[..5]) == [1, 2, 0x41, 3, 0x41, 4, 0x41, 5]
            && EncodeItems(items[5..10]) == [0x82, 0x41, 6, 0x41, 7, 0x82, 0x41, 8, 0x41, 9, 10, 0x41, 11, 0x41, 12]
            && EncodeItems(items[10..]) == [13, 14, 0x41, 15, 16, 17]
  {
    hide Encode, EncodeItems, EncodeHead, Encodable;
    var items := Headers.HeaderItems(HEADER);
    FrontPart();
    MiddlePart();
    BackPart();
    assert items[..5] == [Integer(1), Integer(2), Value.Bytes([3]), Value.Bytes([4]), Value.Bytes([5])];
    assert items[5..10] == [
      Headers.Pair([6], [7]), Headers.Pair([8], [9]), Integer(10), Value.Bytes([11]), Value.Bytes([12])];
    assert items[10..] == [Integer(13), Integer(14), Value.Bytes([15]), Integer(16), Integer(17)];
  }

  lemma {:induction false} Items5(a: Value, b: Value, c: Value, d: Value, e: Value)
    requires Encodable(a) && Encodable(b) && Encodable(c) && Encodable(d) && Encodable(e)
    ensures forall x | x in [a, b, c, d, e] :: Encodable(x)
    ensures EncodeItems([a, b, c, d, e]) == Encode(a) + (Encode(b) + (Encode(c) + (Encode(d) + Encode(e))))
  {
    Items4(b, c, d, e);
    EncodeMore(a, [b, c, d, e]);
    assert [a] + [b, c, d, e] == [a, b, c, d, e];
  }

  lemma FrontPart()
    ensures var part := [Integer(1), Integer(2), Value.Bytes([3]), Value.Bytes([4]), Value.Bytes([5])];
            (forall x | x in part :: Encodable(x)) && EncodeItems(part) == [1, 2, 0x41, 3, 0x41, 4, 0x41, 5]
  {
    hide Encode, EncodeItems, EncodeHead, Encodable;
    Small(1);
    Small(2);
    SmallBytes(3);
    SmallBytes(4);
    SmallBytes(5);
    Items5(Integer(1), Integer(2), Value.Bytes([3]), Value.Bytes([4]), Value.Bytes([5]));
  }

  lemma MiddlePart()
    ensures var part := [
              Headers.Pair([6], [7]), Headers.Pair([8], [9]), Integer(10), Value.Bytes([11]), Value.Bytes([12])];
            && (forall x | x in part :: Encodable(x))
            && EncodeItems(part) == [0x82, 0x41, 6, 0x41, 7, 0x82, 0x41, 8, 0x41, 9, 10, 0x41, 11, 0x41, 12]
  {
    hide Encode, EncodeItems, EncodeHead, Encodable;
    SmallPair(6, 7);
    SmallPair(8, 9);
    Small(10);
    SmallBytes(11);
    SmallBytes(12);
    Items5(Headers.Pair([6], [7]), Headers.Pair([8], [9]), Integer(10), Value.Bytes([11]), Value.Bytes([12]));
  }

  lemma SmallPair(a: Byte, b: Byte)
    ensures Encodable(Headers.Pair([a], [b])) && Encode(Headers.Pair([a], [b])) == [0x82, 0x41, a, 0x41, b]
  {
    hide Encode, EncodeItems, EncodeHead, Encodable;
    SmallBytes(a);
    SmallBytes(b);
    Items2(Value.Bytes([a]), Value.Bytes([b]));
  }

  lemma BackPart()
    ensures var part := [Integer(13), Integer(14), Value.Bytes([15]), Integer(16), Integer(17)];
            (forall x | x in part :: Encodable(x)) && EncodeItems(part) == [13, 14, 0x41, 15, 16, 17]
  {
    hide Encode, EncodeItems, EncodeHead, Encodable;
    Small(13);
    Small(14);
    SmallBytes(15);
    Small(16);
    Small(17);
    Items5(Integer(13), Integer(14), Value.Bytes([15]), Integer(16), Integer(17));
  }

  lemma {:induction false} EncodeAppend(a: seq<Value>, b: seq<Value>)
    requires (forall x | x in a :: Encodable(x)) && forall x | x in b :: Encodable(x)
    ensures forall x | x in a + b :: Encodable(x)
    ensures EncodeItems(a + b) == EncodeItems(a) + EncodeItems(b)
  {
    hide Encode, Encodable;
    if a == [] {
      assert a + b == b;
    } else {
      EncodeAppend(a[1..], b);
      EncodeMore(a[0], a[1..] + b);
      assert [a[0]] + (a[1..] + b) == a + b;
    }
  }
}

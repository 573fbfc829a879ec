/** The part of CBOR (RFC 8949) that the protocol messages use: values, the shortest-head encoder and a
    decoder that tells apart "not enough octets yet" and "never going to be a value". */
module Cbor {
  import opened Bytes

  /** A map keeps its keys and values alternating, in wire order. */
  datatype Value =
    | Integer(number: int)
    | Bytes(octets: Octets)
    | Text(utf8: Octets)
    | Bool(flag: bool)
    | Null
    | Array(items: seq<Value>)
    | Map(keysAndValues: seq<Value>)

  datatype Outcome<+T> = Done(value: T, used: nat) | Incomplete | Malformed

  datatype Head = Head(major: nat, arg: nat)

  const TWO64: int := 0x1_0000_0000_0000_0000

  /** The values the serializer accepts: 64-bit arguments throughout. */
  predicate Encodable(v: Value) {
    match v
    case Integer(i) => -TWO64 <= i < TWO64
    case Bytes(b) => |b| < TWO64
    case Text(t) => |t| < TWO64
    case Bool(_) => true
    case Null => true
    case Array(items) => |items| < TWO64 && forall x | x in items :: Encodable(x)
    case Map(items) => |items| % 2 == 0 && |items| / 2 < TWO64 && forall x | x in items :: Encodable(x)
  }

  /** RFC 8949, section 3 with the shortest form of section 4.1. */
  function EncodeHead(major: nat, arg: nat): (s: Octets)
    requires major < 8 && arg < TWO64
    ensures 1 <= |s| <= 9
  {
    if arg < 24 then [major * 32 + arg]
    else if arg < 0x100 then [major * 32 + 24] + BigEndian(arg, 1)
    else if arg < 0x1_0000 then [major * 32 + 25] + BigEndian(arg, 2)
    else if arg < 0x1_0000_0000 then [major * 32 + 26] + BigEndian(arg, 4)
    else [major * 32 + 27] + BigEndian(arg, 8)
  }

  function Encode(v: Value): (s: Octets)
    requires Encodable(v)
    decreases v, 0
  {
    match v
    case Integer(i) => if i >= 0 then EncodeHead(0, i) else EncodeHead(1, -1 - i)
    case Bytes(b) => EncodeHead(2, |b|) + b
    case Text(t) => EncodeHead(3, |t|) + t
    case Bool(b) => [if b then 0xf5 else 0xf4]
    case Null => [0xf6]
    case Array(items) => EncodeHead(4, |items|) + EncodeItems(items)
    case Map(items) => EncodeHead(5, |items| / 2) + EncodeItems(items)
  }

  function EncodeItems(vs: seq<Value>): Octets
    requires forall x | x in vs :: Encodable(x)
    decreases vs, 0
  {
    if vs == [] then [] else Encode(vs[0]) + EncodeItems(vs[1..])
  }

  /** How many octets follow an initial octet with this additional information. */
  function ArgWidth(info: nat): nat
    requires 24 <= info < 28
  {
    if info == 24 then 1 else if info == 25 then 2 else if info == 26 then 4 else 8
  }

  function DecodeHead(s: Octets): (o: Outcome<Head>)
    ensures o.Done? ==> 1 <= o.used <= |s| && o.value.major < 8
  {
    if s == [] then Incomplete
    else
      var major, info := s[0] / 32, s[0] % 32;
      if info < 24 then Done(Head(major, info), 1)
      else if info >= 28 || major == 7 then Malformed
      else
        var n := ArgWidth(info);
        if |s| < 1 + n then Incomplete else Done(Head(major, FromBigEndian(s[1..1 + n])), 1 + n)
  }

  /** Decodes the first data item of s. */
  function Decode(s: Octets): (o: Outcome<Value>)
    ensures o.Done? ==> 1 <= o.used <= |s|
    decreases |s|, 0
  {
    match DecodeHead(s)
    case Incomplete => Incomplete
    case Malformed => Malformed
    case Done(Head(major, arg), h) =>
      if major == 0 then Done(Integer(arg), h)
      else if major == 1 then Done(Integer(-1 - arg), h)
      else if major == 2 || major == 3 then
        if |s| < h + arg then Incomplete
        else Done(if major == 2 then Bytes(s[h..h + arg]) else Text(s[h..h + arg]), h + arg)
      else if major == 4 then
        match DecodeItems(s[h..], arg)
        case Incomplete => Incomplete
        case Malformed => Malformed
        case Done(items, n) => Done(Array(items), h + n)
      else if major == 5 then
        match DecodeItems(s[h..], 2 * arg)
        case Incomplete => Incomplete
        case Malformed => Malformed
        case Done(items, n) => Done(Map(items), h + n)
      else if major == 7 && arg == 20 then Done(Bool(false), h)
      else if major == 7 && arg == 21 then Done(Bool(true), h)
      else if major == 7 && (arg == 22 || arg == 23) then Done(Null, h)
      else Malformed
  }

  /** Decodes exactly count consecutive data items. */
  function DecodeItems(s: Octets, count: nat): (o: Outcome<seq<Value>>)
    ensures o.Done? ==> o.used <= |s| && |o.value| == count
    decreases |s|, 1
  {
    if count == 0 then Done([], 0)
    else
      match Decode(s)
      case Incomplete => Incomplete
      case Malformed => Malformed
      case Done(v, n) =>
        match DecodeItems(s[n..], count - 1)
        case Incomplete => Incomplete
        case Malformed => Malformed
        case Done(vs, m) => Done([v] + vs, n + m)
  }

  // ---------------------------------------------------------------- prefix stability

  lemma HeadStable(s: Octets, t: Octets)
    requires !DecodeHead(s).Incomplete?
    ensures DecodeHead(s + t) == DecodeHead(s)
  {
    var info := s[0] % 32;
    if 24 <= info < 28 && s[0] / 32 != 7 {
      var n := ArgWidth(info);
      assert (s + t)[1..1 + n] == s[1..1 + n];
    }
  }

  /** A decided outcome does not change when more octets arrive. */
  lemma {:induction false} DecodeStable(s: Octets, t: Octets)
    requires !Decode(s).Incomplete?
    ensures Decode(s + t) == Decode(s)
    decreases |s|, 0
  {
    HeadStable(s, t);
    if DecodeHead(s).Done? {
      var Done(Head(major, arg), h) := DecodeHead(s);
      if major == 2 || major == 3 {
        assert (s + t)[h..h + arg] == s[h..h + arg];
      } else if major == 4 {
        assert (s + t)[h..] == s[h..] + t;
        ItemsStable(s[h..], t, arg);
      } else if major == 5 {
        assert (s + t)[h..] == s[h..] + t;
        ItemsStable(s[h..], t, 2 * arg);
      }
    }
  }

  lemma {:induction false} ItemsStable(s: Octets, t: Octets, count: nat)
    requires !DecodeItems(s, count).Incomplete?
    ensures DecodeItems(s + t, count) == DecodeItems(s, count)
    decreases |s|, 1
  {
    if count > 0 {
      DecodeStable(s, t);
      if Decode(s).Done? {
        var n := Decode(s).used;
        assert (s + t)[n..] == s[n..] + t;
        ItemsStable(s[n..], t, count - 1);
      }
    }
  }

  // ---------------------------------------------------------------- round trip

  /** A head whose argument follows in n octets. */
  lemma {:induction false} WideHeadRoundTrip(major: nat, info: nat, arg: nat, t: Octets)
    requires major < 7 && 24 <= info < 28 && arg < Pow256(ArgWidth(info))
    ensures var n := ArgWidth(info);
            DecodeHead([major * 32 + info] + BigEndian(arg, n) + t) == Done(Head(major, arg), 1 + n)
  {
    var n := ArgWidth(info);
    var b := BigEndian(arg, n);
    var s := [major * 32 + info] + b + t;
    assert s[0] / 32 == major && s[0] % 32 == info;
    assert s[1..1 + n] == b;
    assert FromBigEndian(b) == arg by {
      BigEndianRoundTrip(arg, n);
    }
  }

  lemma HeadRoundTrip(major: nat, arg: nat, t: Octets)
    requires major < 7 && arg < TWO64
    ensures DecodeHead(EncodeHead(major, arg) + t) == Done(Head(major, arg), |EncodeHead(major, arg)|)
  {
    if arg >= 24 {
      var info := if arg < 0x100 then 24 else if arg < 0x1_0000 then 25 else if arg < 0x1_0000_0000 then 26 else 27;
      assert arg < Pow256(ArgWidth(info)) by {
        Pow256Values();
      }
      WideHeadRoundTrip(major, info, arg, t);
    }
  }

  lemma {:induction false} IntegerRoundTrip(i: int, t: Octets)
    requires Encodable(Integer(i))
    ensures Decode(Encode(Integer(i)) + t) == Done(Integer(i), |Encode(Integer(i))|)
  {
    if i >= 0 {
      HeadRoundTrip(0, i, t);
    } else {
      HeadRoundTrip(1, -1 - i, t);
    }
  }

  lemma {:induction false} StringRoundTrip(major: nat, b: Octets, t: Octets)
    requires 2 <= major <= 3 && |b| < TWO64
    ensures Decode(EncodeHead(major, |b|) + b + t)
         == Done(if major == 2 then Bytes(b) else Text(b), |EncodeHead(major, |b|)| + |b|)
  {
    var h := EncodeHead(major, |b|);
    var s := h + b + t;
    HeadRoundTrip(major, |b|, b + t);
    assert s == h + (b + t);
    assert s[|h|..|h| + |b|] == b;
  }

  lemma {:induction false} ContainerRoundTrip(major: nat, arg: nat, items: seq<Value>, body: Octets, t: Octets)
    requires 4 <= major <= 5 && arg < TWO64
    requires DecodeItems(body + t, if major == 4 then arg else 2 * arg) == Done(items, |body|)
    ensures Decode(EncodeHead(major, arg) + body + t)
         == Done(if major == 4 then Array(items) else Map(items), |EncodeHead(major, arg)| + |body|)
  {
    var h := EncodeHead(major, arg);
    HeadRoundTrip(major, arg, body + t);
    assert h + body + t == h + (body + t);
    assert (h + body + t)[|h|..] == body + t;
  }

  /** Decoding an encoded value gives it back and takes exactly its octets, whatever follows. */
  lemma {:induction false} RoundTrip(v: Value, t: Octets)
    requires Encodable(v)
    ensures Decode(Encode(v) + t) == Done(v, |Encode(v)|)
    decreases v, 0
  {
    match v
    case Integer(i) => IntegerRoundTrip(i, t);
    case Bytes(b) => StringRoundTrip(2, b, t);
    case Text(b) => StringRoundTrip(3, b, t);
    case Bool(_) =>
    case Null =>
    case Array(items) =>
      ItemsRoundTrip(items, t);
      ContainerRoundTrip(4, |items|, items, EncodeItems(items), t);
    case Map(items) =>
      ItemsRoundTrip(items, t);
      ContainerRoundTrip(5, |items| / 2, items, EncodeItems(items), t);
  }

  lemma {:induction false} ItemsRoundTrip(vs: seq<Value>, t: Octets)
    requires forall x | x in vs :: Encodable(x)
    ensures DecodeItems(EncodeItems(vs) + t, |vs|) == Done(vs, |EncodeItems(vs)|)
    decreases vs, 0
  {
    if vs != [] {
      var s := EncodeItems(vs) + t;
      var rest := EncodeItems(vs[1..]) + t;
      assert s == Encode(vs[0]) + rest;
      RoundTrip(vs[0], rest);
      assert s[|Encode(vs[0])|..] == rest;
      ItemsRoundTrip(vs[1..], t);
      assert [vs[0]] + vs[1..] == vs;
    }
  }

  /** No proper prefix of an encoded value decodes, not even to an error. */
  lemma {:induction false} ProperPrefixIncomplete(v: Value, k: nat)
    requires Encodable(v) && k < |Encode(v)|
    ensures Decode(Encode(v)[..k]).Incomplete?
  {
    var s := Encode(v);
    if !Decode(s[..k]).Incomplete? {
      DecodeStable(s[..k], s[k..]);
      assert s[..k] + s[k..] == s + [];
      RoundTrip(v, []);
    }
  }

  /** The encoding is a prefix code, hence injective. */
  lemma {:induction false} EncodeInjective(v: Value, w: Value, t: Octets, u: Octets)
    requires Encodable(v) && Encodable(w)
    requires Encode(v) + t == Encode(w) + u
    ensures v == w && t == u
  {
    RoundTrip(v, t);
    RoundTrip(w, u);
    assert (Encode(v) + t)[|Encode(v)|..] == t;
    assert (Encode(w) + u)[|Encode(w)|..] == u;
  }

  // ---------------------------------------------------------------- shortest form

  /** Of all heads that are read as the same, the encoder writes the shortest. */
  lemma HeadShortest(s: Octets)
    requires DecodeHead(s).Done?
    ensures var Done(Head(major, arg), used) := DecodeHead(s);
            arg < TWO64 && |EncodeHead(major, arg)| <= used
  {
    Pow256Values();
  }

  /** And so of all the encodings of a value that the decoder accepts: whatever it reads can be written again, in
      no more octets. */
  lemma {:induction false} EncodeShortest(s: Octets)
    requires Decode(s).Done?
    ensures Encodable(Decode(s).value) && |Encode(Decode(s).value)| <= Decode(s).used
    decreases |s|, 0
  {
    HeadShortest(s);
    var Done(Head(major, arg), h) := DecodeHead(s);
    if major == 4 {
      ItemsShortest(s[h..], arg);
    } else if major == 5 {
      ItemsShortest(s[h..], 2 * arg);
    }
  }

  lemma {:induction false} ItemsShortest(s: Octets, count: nat)
    requires DecodeItems(s, count).Done?
    ensures forall x | x in DecodeItems(s, count).value :: Encodable(x)
    ensures |EncodeItems(DecodeItems(s, count).value)| <= DecodeItems(s, count).used
    decreases |s|, 1
  {
    if count > 0 {
      EncodeShortest(s);
      var n := Decode(s).used;
      ItemsShortest(s[n..], count - 1);
      var all := DecodeItems(s, count).value;
      assert all[0] == Decode(s).value && all[1..] == DecodeItems(s[n..], count - 1).value;
    }
  }

  lemma {:induction false} EncodeMore(v: Value, rest: seq<Value>)
    requires Encodable(v) && forall x | x in rest :: Encodable(x)
    ensures forall x | x in [v] + rest :: Encodable(x)
    ensures EncodeItems([v] + rest) == Encode(v) + EncodeItems(rest)
  {
    var all := [v] + rest;
    assert all[0] == v && all[1..] == rest;
  }
}

/** The octets of a channel are a CBOR sequence of arrays (RFC 8742, section 2), one array a message. */
module MessageStream {
  import opened Bytes
  import opened Cbor

  type Fields = seq<Value>

  /** Deserializing one message as an array of values. An item of another type is refused: a map as soon
      as its head is read, the others once they are complete. */
  function DecodeMessage(s: Octets): (o: Outcome<Fields>)
    ensures o.Done? ==> 1 <= o.used <= |s|
  {
    match DecodeHead(s)
    case Incomplete => Incomplete
    case Malformed => Malformed
    case Done(Head(major, count), h) =>
      if major == 4 then
        match DecodeItems(s[h..], count)
        case Incomplete => Incomplete
        case Malformed => Malformed
        case Done(items, n) => Done(items, h + n)
      else if major != 5 && Decode(s).Incomplete? then Incomplete
      else Malformed
  }

  predicate EncodableMessage(fields: Fields) {
    Encodable(Array(fields))
  }

  function EncodeMessage(fields: Fields): (s: Octets)
    requires EncodableMessage(fields)
  {
    Encode(Array(fields))
  }

  lemma MessageStable(s: Octets, t: Octets)
    requires !DecodeMessage(s).Incomplete?
    ensures DecodeMessage(s + t) == DecodeMessage(s)
  {
    HeadStable(s, t);
    if DecodeHead(s).Done? {
      var Done(Head(major, count), h) := DecodeHead(s);
      if major == 4 {
        assert (s + t)[h..] == s[h..] + t;
        ItemsStable(s[h..], t, count);
      } else if major != 5 {
        DecodeStable(s, t);
      }
    }
  }

  lemma MessageRoundTrip(fields: Fields, t: Octets)
    requires EncodableMessage(fields)
    ensures EncodeMessage(fields) != []
    ensures DecodeMessage(EncodeMessage(fields) + t) == Done(fields, |EncodeMessage(fields)|)
  {
    var h, body := EncodeHead(4, |fields|), EncodeItems(fields);
    HeadRoundTrip(4, |fields|, body + t);
    assert EncodeMessage(fields) + t == h + (body + t);
    assert (h + (body + t))[|h|..] == body + t;
    ItemsRoundTrip(fields, t);
  }

  /** The complete messages at the front of s, the octets they take, and whether what follows them can
      still become a message. */
  datatype Scan = Scan(messages: seq<Fields>, used: nat, sound: bool)

  function ScanMessages(s: Octets): (r: Scan)
    ensures r.used <= |s|
    decreases |s|
  {
    if s == [] then Scan([], 0, true)
    else
      match DecodeMessage(s)
      case Incomplete => Scan([], 0, true)
      case Malformed => Scan([], 0, false)
      case Done(fields, n) =>
        var r := ScanMessages(s[n..]);
        Scan([fields] + r.messages, n + r.used, r.sound)
  }

  /** What is left for the next frame. */
  function Leftover(s: Octets): Octets {
    s[ScanMessages(s).used..]
  }

  /** Octets in which no message is complete: all the channel ever keeps. */
  predicate Settled(s: Octets) {
    s == [] || DecodeMessage(s).Incomplete?
  }

  /** One scan continued by another. */
  function Joined(x: Scan, y: Scan): Scan {
    if x.sound then Scan(x.messages + y.messages, x.used + y.used, y.sound) else x
  }

  lemma {:induction false} ScanStep(s: Octets)
    requires s != [] && DecodeMessage(s).Done?
    ensures var o := DecodeMessage(s);
            ScanMessages(s) == Joined(Scan([o.value], o.used, true), ScanMessages(s[o.used..]))
    ensures Leftover(s) == Leftover(s[DecodeMessage(s).used..])
  {
  }

  /** Scanning does not depend on where the octets were cut: scanning a, then what it left together with b,
      finds the same messages and takes the same octets as scanning a + b; and an unsound a stays unsound. */
  lemma {:induction false} ScanAppend(a: Octets, b: Octets)
    ensures ScanMessages(a + b) == Joined(ScanMessages(a), ScanMessages(Leftover(a) + b))
    decreases |a|
  {
    if Settled(a) {
      SettledScan(a);
      assert a == [] ==> a + b == b;
      assert Joined(ScanMessages(a), ScanMessages(a + b)).messages == ScanMessages(a + b).messages;
    } else {
      MessageStable(a, b);
      if DecodeMessage(a).Done? {
        var n := DecodeMessage(a).used;
        var first := Scan([DecodeMessage(a).value], n, true);
        assert (a + b)[n..] == a[n..] + b;
        ScanStep(a);
        ScanStep(a + b);
        ScanAppend(a[n..], b);
        JoinedAssociative(first, ScanMessages(a[n..]), ScanMessages(Leftover(a) + b));
      }
    }
  }

  lemma JoinedAssociative(x: Scan, y: Scan, z: Scan)
    ensures Joined(x, Joined(y, z)) == Joined(Joined(x, y), z)
  {
    assert x.messages + (y.messages + z.messages) == (x.messages + y.messages) + z.messages;
  }

  /** Leftover octets never contain a complete message. */
  lemma {:induction false} LeftoverSettled(s: Octets)
    requires ScanMessages(s).sound
    ensures Settled(Leftover(s))
    decreases |s|
  {
    if s != [] && DecodeMessage(s).Done? {
      ScanStep(s);
      LeftoverSettled(s[DecodeMessage(s).used..]);
    }
  }

  lemma {:induction false} SettledScan(s: Octets)
    requires Settled(s)
    ensures ScanMessages(s) == Scan([], 0, true) && Leftover(s) == s
  {
  }

  lemma {:induction false} NothingScanned(s: Octets)
    ensures ScanMessages(s).messages == [] ==> ScanMessages(s).used == 0
  {
  }

  // ---------------------------------------------------------------- one message

  /** The octets of one message, in any encoding. */
  predicate OneMessage(data: Octets, fields: Fields) {
    ScanMessages(data) == Scan([fields], |data|, true)
  }

  /** Cutting them, the front is all of the message or none of it. */
  lemma {:induction false} CutMessage(a: Octets, b: Octets, fields: Fields)
    requires OneMessage(a + b, fields)
    ensures ScanMessages(a).sound
    ensures if OneMessage(a, fields) then Leftover(a) == [] && b == []
            else ScanMessages(a).messages == [] && Leftover(a) == a && Settled(a)
  {
    hide ScanMessages, DecodeMessage, Settled;
    ScanAppend(a, b);
    NothingScanned(a);
    NothingScanned(Leftover(a) + b);
    LeftoverSettled(a);
    var x, y := ScanMessages(a), ScanMessages(Leftover(a) + b);
    assert x.messages + y.messages == [fields];
    if x.messages == [] {
      assert a[0..] == a;
    } else {
      assert x.messages[0] == fields && |x.messages| == 1 && y.messages == [];
      assert x.messages == [fields] && x.used == |a| + |b|;
    }
  }

  // ---------------------------------------------------------------- encoded streams

  /** The octets of several messages, one after another. */
  function EncodeAll(messages: seq<Fields>): (s: Octets)
    requires forall m | m in messages :: EncodableMessage(m)
  {
    if messages == [] then [] else EncodeMessage(messages[0]) + EncodeAll(messages[1..])
  }

  lemma {:induction false} ScanEncoded(messages: seq<Fields>)
    requires forall m | m in messages :: EncodableMessage(m)
    ensures ScanMessages(EncodeAll(messages)) == Scan(messages, |EncodeAll(messages)|, true)
  {
    if messages != [] {
      var first, rest := EncodeMessage(messages[0]), EncodeAll(messages[1..]);
      MessageRoundTrip(messages[0], rest);
      assert (first + rest)[|first|..] == rest;
      ScanEncoded(messages[1..]);
      assert [messages[0]] + messages[1..] == messages;
    }
  }

  /** Every prefix of an encoded stream scans to a prefix of its messages and stays sound; the messages it
      still lacks are found in what it left followed by the rest of the stream. */
  lemma {:induction false} ScanPrefix(messages: seq<Fields>, p: Octets, q: Octets)
    requires forall m | m in messages :: EncodableMessage(m)
    requires p + q == EncodeAll(messages)
    ensures ScanMessages(p).sound
    ensures messages == ScanMessages(p).messages + ScanMessages(Leftover(p) + q).messages
    ensures ScanMessages(p).messages <= messages
  {
    ScanEncoded(messages);
    ScanAppend(p, q);
  }

  /** A proper prefix of one message keeps the receiver waiting; the whole of it is one message. */
  lemma {:induction false} ScanOneMessage(fields: Fields, p: Octets)
    requires EncodableMessage(fields) && p <= EncodeMessage(fields)
    ensures ScanMessages(p) ==
            if p == EncodeMessage(fields) then Scan([fields], |p|, true) else Scan([], 0, true)
  {
    var all := EncodeMessage(fields);
    MessageRoundTrip(fields, []);
    assert all + [] == all;
    if p == all {
      assert DecodeMessage(p) == Done(fields, |p|);
      assert p[|p|..] == [];
    } else if p != [] && !DecodeMessage(p).Incomplete? {
      var q := all[|p|..];
      assert p + q == all;
      MessageStable(p, q);
      assert false;
    }
  }
}

/** Protocol versions, and the proposal they travel in: a map sorted by wire number. */
module Versions {
  import opened Bytes
  import opened Cbor
  import opened Values

  datatype Version = N2N(number: int) | C2N(number: int)

  datatype Offer = Offer(version: Version, magic: U32)

  /** The versions that can be proposed. */
  predicate Supported(v: Version) {
    if v.N2N? then 1 <= v.number <= 7 else 1 <= v.number <= 9
  }

  ghost predicate AllSupported(offers: seq<Offer>) {
    forall o | o in offers :: Supported(o.version)
  }

  /** The number of an accepted version; None is a failed conversion to 16 bits. */
  function ToU16(v: Version): Option<U16> {
    if !(0 <= v.number < 0x1_0000) then None else Some(if v.N2N? then v.number else Flip(v.number))
  }

  function FromU16(n: U16): Version {
    if n < 0x8000 then N2N(n) else C2N(Flip(n))
  }

  /** Exactly the versions of 16 bits have a number; every number is that of one version below 0x8000, and larger
      versions come back as another. */
  lemma NumberExact(v: Version, n: U16)
    ensures ToU16(v).Some? <==> 0 <= v.number < 0x1_0000
    ensures ToU16(FromU16(n)) == Some(n)
    ensures ToU16(v).Some? ==> (FromU16(ToU16(v).value) == v <==> v.number < 0x8000)
  {
  }

  // ---------------------------------------------------------------- one entry

  datatype Pair = Pair(key: int, value: Value)

  function ToPair(o: Offer): Option<Pair> {
    match o.version
    case N2N(n) =>
      if 1 <= n <= 3 then Some(Pair(n, Integer(o.magic)))
      else if 4 <= n <= 7 then Some(Pair(n, Array([Integer(o.magic), Bool(false)])))
      else None
    case C2N(n) => if 1 <= n <= 9 then Some(Pair(Flip(n), Integer(o.magic))) else None
  }

  function FromPair(p: Pair): Option<Offer> {
    var n := AsU32(p.key);
    if 1 <= n <= 3 then
      if p.value.Integer? then Some(Offer(N2N(n), AsU32(p.value.number))) else None
    else if 4 <= n <= 7 then
      if p.value.Array? && |p.value.items| >= 2 && p.value.items[0].Integer? && p.value.items[1] == Bool(false)
      then Some(Offer(N2N(n), AsU32(p.value.items[0].number))) else None
    else if 0x8001 <= n <= 0x8009 then
      if p.value.Integer? then Some(Offer(C2N(Flip(n)), AsU32(p.value.number))) else None
    else None
  }

  /** Exactly the supported versions can be proposed, and exactly they are understood. */
  lemma PairRoundTrip(o: Offer, p: Pair)
    ensures ToPair(o).Some? <==> Supported(o.version)
    ensures Supported(o.version) ==> FromPair(ToPair(o).value) == Some(o)
    ensures FromPair(p).Some? ==> Supported(FromPair(p).value.version)
  {
  }

  /** The forms of the entries, at the limits of each: a magic alone, a list with a flag, a number with the high
      bit. */
  lemma EntryForms(magic: U32)
    ensures ToPair(Offer(N2N(1), magic)) == Some(Pair(1, Integer(magic)))
    ensures ToPair(Offer(N2N(3), magic)) == Some(Pair(3, Integer(magic)))
    ensures ToPair(Offer(N2N(4), magic)) == Some(Pair(4, Array([Integer(magic), Bool(false)])))
    ensures ToPair(Offer(N2N(7), magic)) == Some(Pair(7, Array([Integer(magic), Bool(false)])))
    ensures ToPair(Offer(C2N(1), magic)) == Some(Pair(0x8001, Integer(magic)))
    ensures ToPair(Offer(C2N(9), magic)) == Some(Pair(0x8009, Integer(magic)))
    ensures forall n | n in {0, 8} :: ToPair(Offer(N2N(n), magic)) == None
    ensures forall n | n in {0, 10} :: ToPair(Offer(C2N(n), magic)) == None
  {
  }

  /** No cast changes anything in an entry, and its parameters are a magic and a flag only. */
  predicate Plain(p: Pair) {
    && 0 <= p.key < 0x1_0000_0000
    && (if p.value.Integer? then 0 <= p.value.number < 0x1_0000_0000
        else p.value.Array? && |p.value.items| == 2
             && p.value.items[0].Integer? && 0 <= p.value.items[0].number < 0x1_0000_0000)
  }

  /** An entry that is understood is the one that would be written for it, exactly if no cast changed anything in
      it and no further parameter was ignored. So a flag that is set or missing, or a magic in the wrong place, is
      refused. */
  lemma PairExact(p: Pair, o: Offer)
    requires FromPair(p) == Some(o)
    ensures ToPair(o) == Some(p) <==> Plain(p)
  {
    if p.value.Array? && |p.value.items| == 2 {
      assert p.value.items == [p.value.items[0], p.value.items[1]];
    }
  }

  /** In a proposal a version has the number it is accepted by, and no two versions share one, whichever of
      the two families they are from. */
  lemma NumbersNeverCollide(a: Offer, b: Offer)
    requires Supported(a.version) && Supported(b.version)
    ensures ToPair(a).Some? && Some(ToPair(a).value.key) == ToU16(a.version)
    ensures ToPair(b).Some? && (ToPair(a).value.key == ToPair(b).value.key <==> a.version == b.version)
  {
  }

  // ---------------------------------------------------------------- the sorted map

  function Magnitude(i: int): nat {
    if i < 0 then -i else i
  }

  /** The order of integer keys: those of major type 0 first, then by absolute value. */
  predicate Before(a: int, b: int) {
    if (a < 0) == (b < 0) then Magnitude(a) < Magnitude(b) else b < 0
  }

  predicate Sorted(table: seq<Pair>) {
    forall i, j | 0 <= i < j < |table| :: Before(table[i].key, table[j].key)
  }

  /** Inserting into the map replaces what was there under the same key. */
  function Insert(table: seq<Pair>, p: Pair): seq<Pair> {
    if table == [] then [p]
    else if table[0].key == p.key then [p] + table[1..]
    else if Before(p.key, table[0].key) then [p] + table
    else [table[0]] + Insert(table[1..], p)
  }

  /** The map of some pairs, inserted one after another. */
  function Collect(pairs: seq<Pair>): seq<Pair> {
    if pairs == [] then [] else Insert(Collect(pairs[..|pairs| - 1]), pairs[|pairs| - 1])
  }

  /** No later pair has the same key. */
  ghost predicate LastOf(pairs: seq<Pair>, p: Pair) {
    exists i | 0 <= i < |pairs| :: pairs[i] == p && NoneFrom(pairs, i + 1, p.key)
  }

  predicate NoneFrom(pairs: seq<Pair>, from: nat, key: int) {
    forall j | from <= j < |pairs| :: pairs[j].key != key
  }

  lemma {:induction false} InsertKeeps(table: seq<Pair>, p: Pair)
    requires Sorted(table)
    ensures Sorted(Insert(table, p))
    ensures forall q :: q in Insert(table, p) <==> q == p || (q in table && q.key != p.key)
  {
    if table != [] {
      var first, rest := table[0], table[1..];
      assert forall q | q in rest :: Before(first.key, q.key);
      if first.key != p.key && !Before(p.key, first.key) {
        InsertKeeps(rest, p);
        assert forall q | q in Insert(rest, p) :: Before(first.key, q.key);
      }
      assert forall q :: q in table <==> q == first || q in rest;
    }
  }

  lemma LastOfMore(pairs: seq<Pair>, p: Pair, q: Pair)
    ensures LastOf(pairs + [p], q) <==> q == p || (LastOf(pairs, q) && q.key != p.key)
  {
    var all := pairs + [p];
    if q == p {
      assert all[|pairs|] == q && NoneFrom(all, |pairs| + 1, q.key);
    }
    if LastOf(pairs, q) && q.key != p.key {
      var i :| 0 <= i < |pairs| && pairs[i] == q && NoneFrom(pairs, i + 1, q.key);
      assert all[i] == q && NoneFrom(all, i + 1, q.key);
    }
    if LastOf(all, q) && q != p {
      var i :| 0 <= i < |all| && all[i] == q && NoneFrom(all, i + 1, q.key);
      assert all[|pairs|] == p;
      assert forall j | i + 1 <= j < |pairs| :: pairs[j] == all[j];
      assert pairs[i] == q && NoneFrom(pairs, i + 1, q.key);
    }
  }

  /** The map is strictly sorted and holds exactly the last pair of every key. */
  lemma {:induction false} CollectSorts(pairs: seq<Pair>)
    ensures Sorted(Collect(pairs))
    ensures forall q :: q in Collect(pairs) <==> LastOf(pairs, q)
  {
    if pairs != [] {
      var front, p := pairs[..|pairs| - 1], pairs[|pairs| - 1];
      CollectSorts(front);
      InsertKeeps(Collect(front), p);
      assert pairs == front + [p];
      forall q ensures q in Collect(pairs) <==> LastOf(pairs, q) {
        LastOfMore(front, p, q);
      }
    }
  }

  /** Being strictly sorted, the map is determined by its pairs. */
  lemma {:induction false} SortedUnique(a: seq<Pair>, b: seq<Pair>)
    requires Sorted(a) && Sorted(b)
    requires forall q :: q in a <==> q in b
    ensures a == b
  {
    if a == [] {
      SomeElement(b);
    } else {
      assert a[0] in b;
      assert b[0] in a;
      assert a[0] == b[0];
      forall q ensures q in a[1..] <==> q in b[1..] {
        assert q in a[1..] <==> q in a && q != a[0];
        assert q in b[1..] <==> q in b && q != b[0];
      }
      SortedUnique(a[1..], b[1..]);
      assert a == [a[0]] + a[1..] && b == [b[0]] + b[1..];
    }
  }

  /** The order of keys is strict and total, and goes by the heads that encode them: first the major type, then
      the argument. */
  lemma KeyOrder(a: int, b: int, c: int)
    ensures !Before(a, a) && (a != b ==> Before(a, b) || Before(b, a))
    ensures Before(a, b) && Before(b, c) ==> Before(a, c)
    ensures 0 <= a < b ==> Before(a, b)
    ensures b < 0 <= a ==> Before(a, b)
    ensures b < a < 0 ==> Before(a, b)
  {
  }

  /** Foreign keys: of two that the cast makes 6 and 7, the negative one comes last. */
  lemma ForeignKeys()
    ensures FromMap([Integer(6 - 0x1_0000_0000), Array([Integer(1), Bool(false)]),
                     Integer(7), Array([Integer(2), Bool(false)])])
         == Some([Offer(N2N(7), 2), Offer(N2N(6), 1)])
  {
    var a := Pair(6 - 0x1_0000_0000, Array([Integer(1), Bool(false)]));
    var b := Pair(7, Array([Integer(2), Bool(false)]));
    FlattenRoundTrip([a, b]);
    assert [a, b][1..] == [b] && [b][1..] == [];
    assert Flatten([b]) == [Integer(b.key), b.value] + Flatten([]);
    assert Flatten([a, b]) == [Integer(a.key), a.value, Integer(b.key), b.value];
    assert [a, b][..1] == [a] && [a][..0] == [];
    assert Collect([a]) == [a] by {
      assert Collect([a]) == Insert([], a);
    }
    assert Collect([a, b]) == Insert([a], b);
    assert Insert([a], b) == [b, a];
    FromPairsPointwise([b, a], [Offer(N2N(7), 2), Offer(N2N(6), 1)]);
  }

  lemma SomeElement<T>(s: seq<T>)
    ensures s == [] || exists x :: x in s
  {
    if s != [] {
      assert s[0] in s;
    }
  }

  lemma {:induction false} CollectSorted(pairs: seq<Pair>)
    requires Sorted(pairs)
    ensures Collect(pairs) == pairs
  {
    CollectSorts(pairs);
    forall q ensures q in pairs <==> LastOf(pairs, q) {
      if q in pairs {
        var i :| 0 <= i < |pairs| && pairs[i] == q;
        assert NoneFrom(pairs, i + 1, q.key);
      }
    }
    SortedUnique(Collect(pairs), pairs);
  }

  // ---------------------------------------------------------------- the map as a value

  function Flatten(table: seq<Pair>): seq<Value> {
    if table == [] then [] else [Integer(table[0].key), table[0].value] + Flatten(table[1..])
  }

  /** The pairs of a map, in wire order; a key that is not an integer is an error. */
  function Pairs(keysAndValues: seq<Value>): Option<seq<Pair>> {
    if keysAndValues == [] then Some([])
    else if |keysAndValues| == 1 || !keysAndValues[0].Integer? then None
    else
      match Pairs(keysAndValues[2..])
      case None => None
      case Some(rest) => Some([Pair(keysAndValues[0].number, keysAndValues[1])] + rest)
  }

  lemma {:induction false} FlattenRoundTrip(table: seq<Pair>)
    ensures Pairs(Flatten(table)) == Some(table)
  {
    if table != [] {
      FlattenRoundTrip(table[1..]);
      assert Flatten(table)[2..] == Flatten(table[1..]);
      assert [table[0]] + table[1..] == table;
    }
  }

  function ToPairs(offers: seq<Offer>): Option<seq<Pair>> {
    if offers == [] then Some([])
    else
      match (ToPair(offers[0]), ToPairs(offers[1..]))
      case (Some(p), Some(rest)) => Some([p] + rest)
      case _ => None
  }

  function FromPairs(pairs: seq<Pair>): Option<seq<Offer>> {
    if pairs == [] then Some([])
    else
      match (FromPair(pairs[0]), FromPairs(pairs[1..]))
      case (Some(o), Some(rest)) => Some([o] + rest)
      case _ => None
  }

  /** The map of a proposal; None if some version cannot be proposed. */
  function ToMap(offers: seq<Offer>): Option<seq<Value>> {
    match ToPairs(offers)
    case None => None
    case Some(pairs) => Some(Flatten(Collect(pairs)))
  }

  /** The offers of a map, in the order of its keys. */
  function FromMap(keysAndValues: seq<Value>): Option<seq<Offer>> {
    match Pairs(keysAndValues)
    case None => None
    case Some(pairs) => FromPairs(Collect(pairs))
  }

  lemma {:induction false} ToPairsPointwise(offers: seq<Offer>)
    requires AllSupported(offers)
    ensures ToPairs(offers).Some?
    ensures var pairs := ToPairs(offers).value;
            |pairs| == |offers| && forall i | 0 <= i < |offers| :: ToPair(offers[i]) == Some(pairs[i])
  {
    if offers != [] {
      assert offers[0] in offers;
      ToPairsPointwise(offers[1..]);
    }
  }

  lemma {:induction false} FromPairsPointwise(pairs: seq<Pair>, offers: seq<Offer>)
    requires |pairs| == |offers| && forall i | 0 <= i < |pairs| :: FromPair(pairs[i]) == Some(offers[i])
    ensures FromPairs(pairs) == Some(offers)
  {
    if pairs != [] {
      FromPairsPointwise(pairs[1..], offers[1..]);
      assert [offers[0]] + offers[1..] == offers;
    }
  }

  // ---------------------------------------------------------------- the round trip of a proposal

  function Number(v: Version): int {
    ToU16(v).GetOr(0)
  }

  predicate ByNumber(offers: seq<Offer>) {
    forall i, j | 0 <= i < j < |offers| :: Number(offers[i].version) < Number(offers[j].version)
  }

  ghost predicate LastOffer(offers: seq<Offer>, o: Offer) {
    exists i | 0 <= i < |offers| :: offers[i] == o && NoOfferFrom(offers, i + 1, o.version)
  }

  predicate NoOfferFrom(offers: seq<Offer>, from: nat, v: Version) {
    forall j | from <= j < |offers| :: offers[j].version != v
  }

  /** Offers and their pairs, one to one. */
  predicate Match(offers: seq<Offer>, pairs: seq<Pair>) {
    && |offers| == |pairs|
    && forall i | 0 <= i < |offers| :: Supported(offers[i].version) && ToPair(offers[i]) == Some(pairs[i])
  }

  lemma MatchOrder(offers: seq<Offer>, pairs: seq<Pair>)
    requires Match(offers, pairs)
    ensures ByNumber(offers) <==> Sorted(pairs)
  {
    forall i, j | 0 <= i < j < |offers|
      ensures Before(pairs[i].key, pairs[j].key) <==> Number(offers[i].version) < Number(offers[j].version)
    {
      NumbersNeverCollide(offers[i], offers[j]);
    }
  }

  lemma MatchLast(offers: seq<Offer>, pairs: seq<Pair>, o: Offer)
    requires Match(offers, pairs) && Supported(o.version)
    ensures LastOffer(offers, o) <==> LastOf(pairs, ToPair(o).value)
  {
    var p := ToPair(o).value;
    forall i | 0 <= i < |offers|
      ensures offers[i] == o <==> pairs[i] == p
      ensures NoOfferFrom(offers, i + 1, o.version) <==> NoneFrom(pairs, i + 1, p.key)
    {
      PairRoundTrip(o, p);
      PairRoundTrip(offers[i], p);
      forall j | 0 <= j < |offers| ensures offers[j].version == o.version <==> pairs[j].key == p.key {
        NumbersNeverCollide(offers[j], o);
      }
    }
  }

  /** The offers of a map made from offers. */
  lemma Kept(offers: seq<Offer>, pairs: seq<Pair>) returns (back: seq<Offer>)
    requires Match(offers, pairs)
    ensures FromPairs(Collect(pairs)) == Some(back) && Match(back, Collect(pairs))
  {
    CollectSorts(pairs);
    var table := Collect(pairs);
    forall i | 0 <= i < |table|
      ensures FromPair(table[i]).Some? && Supported(FromPair(table[i]).value.version)
      ensures ToPair(FromPair(table[i]).value) == Some(table[i])
    {
      assert LastOf(pairs, table[i]);
      var k :| 0 <= k < |pairs| && pairs[k] == table[i];
      PairRoundTrip(offers[k], pairs[k]);
    }
    back := seq(|table|, i requires 0 <= i < |table| => FromPair(table[i]).value);
    FromPairsPointwise(table, back);
  }

  /** A proposal of any length, in any order and with repetitions comes back sorted by wire number, every
      version with the magic it was last listed with; so it comes back unchanged exactly when it was strictly
      sorted. */
  lemma ProposalRoundTrip(offers: seq<Offer>) returns (back: seq<Offer>)
    requires AllSupported(offers)
    ensures ToMap(offers).Some? && FromMap(ToMap(offers).value) == Some(back)
    ensures ByNumber(back)
    ensures forall o :: o in back <==> LastOffer(offers, o)
    ensures back == offers <==> ByNumber(offers)
  {
    ToPairsPointwise(offers);
    var pairs := ToPairs(offers).value;
    var table := Collect(pairs);
    back := Kept(offers, pairs);
    CollectSorts(pairs);
    CollectSorted(table);
    FlattenRoundTrip(table);
    MatchOrder(back, table);
    MatchOrder(offers, pairs);
    forall o ensures o in back <==> LastOffer(offers, o) {
      KeptExactly(offers, pairs, back, o);
    }
    if ByNumber(offers) {
      CollectSorted(pairs);
      MatchUnique(back, offers, pairs);
    }
  }

  /** The two versions of a node, listed the other way round, do not come back as listed. */
  lemma UnsortedProposal()
    ensures var offers := [Offer(N2N(7), 0), Offer(N2N(6), 0)];
            && ToMap(offers).Some? && FromMap(ToMap(offers).value).Some?
            && FromMap(ToMap(offers).value) != Some(offers)
  {
    var offers := [Offer(N2N(7), 0), Offer(N2N(6), 0)];
    var back := ProposalRoundTrip(offers);
    assert Number(offers[0].version) == 7 && Number(offers[1].version) == 6;
  }

  lemma {:induction false} KeptExactly(offers: seq<Offer>, pairs: seq<Pair>, back: seq<Offer>, o: Offer)
    requires Match(offers, pairs) && Match(back, Collect(pairs))
    ensures o in back <==> LastOffer(offers, o)
  {
    if Supported(o.version) {
      var p := ToPair(o).value;
      CollectSorts(pairs);
      MatchLast(offers, pairs, o);
      forall i | 0 <= i < |back| ensures back[i] == o <==> Collect(pairs)[i] == p {
        PairRoundTrip(o, p);
        PairRoundTrip(back[i], p);
      }
    }
  }

  lemma MatchUnique(a: seq<Offer>, b: seq<Offer>, pairs: seq<Pair>)
    requires Match(a, pairs) && Match(b, pairs)
    ensures a == b
  {
    forall i | 0 <= i < |a| ensures a[i] == b[i] {
      PairRoundTrip(a[i], pairs[i]);
      PairRoundTrip(b[i], pairs[i]);
    }
  }

  /** The place of a key among the keys that can be proposed, counted from 1; 0 for all others. */
  function Place(key: int): nat {
    if 1 <= key <= 7 then key else if 0x8001 <= key <= 0x8009 then Flip(key) + 7 else 0
  }

  predicate WellKeyed(table: seq<Pair>) {
    Sorted(table) && forall i | 0 <= i < |table| :: Place(table[i].key) > 0
  }

  lemma {:induction false} FewKeys(table: seq<Pair>)
    requires WellKeyed(table)
    ensures forall i | 0 <= i < |table| :: i < Place(table[i].key)
    ensures |table| <= 16
  {
    if table != [] {
      var n := |table| - 1;
      FewKeys(table[..n]);
      if n > 0 {
        assert table[..n][n - 1] == table[n - 1];
        assert Before(table[n - 1].key, table[n].key);
      }
    }
  }

  predicate SmallEntry(p: Pair) {
    Encodable(Integer(p.key)) && Encodable(p.value) && |Encode(p.value)| <= 11
  }

  lemma EntryIsSmall(o: Offer)
    requires Supported(o.version)
    ensures ToPair(o).Some? && SmallEntry(ToPair(o).value) && Place(ToPair(o).value.key) > 0
  {
    var items := [Integer(o.magic), Bool(false)];
    assert forall x | x in items :: Encodable(x);
    assert items[1..] == [Bool(false)] && items[1..][1..] == [];
    assert EncodeItems(items) == Encode(items[0]) + EncodeItems(items[1..]);
    assert EncodeItems(items[1..]) == Encode(Bool(false)) + EncodeItems([]);
  }

  lemma {:induction false} EntriesAreSmall(offers: seq<Offer>, pairs: seq<Pair>)
    requires Match(offers, pairs)
    ensures forall i | 0 <= i < |pairs| :: SmallEntry(pairs[i]) && Place(pairs[i].key) > 0
  {
    forall i | 0 <= i < |pairs| ensures SmallEntry(pairs[i]) && Place(pairs[i].key) > 0 {
      EntryIsSmall(offers[i]);
    }
  }

  lemma {:induction false} SmallTable(table: seq<Pair>)
    requires forall i | 0 <= i < |table| :: SmallEntry(table[i])
    ensures |Flatten(table)| == 2 * |table|
    ensures forall x | x in Flatten(table) :: Encodable(x)
    ensures |EncodeItems(Flatten(table))| <= 20 * |table|
  {
    if table != [] {
      var flat := Flatten(table);
      SmallTable(table[1..]);
      assert flat[1..][1..] == Flatten(table[1..]);
      assert flat[0] == Integer(table[0].key) && flat[1..][0] == table[0].value;
      assert EncodeItems(flat[1..]) == Encode(table[0].value) + EncodeItems(flat[1..][1..]);
      assert EncodeItems(flat) == Encode(flat[0]) + EncodeItems(flat[1..]);
    }
  }

  lemma {:induction false} TableEncodable(table: seq<Pair>)
    requires WellKeyed(table) && forall i | 0 <= i < |table| :: SmallEntry(table[i])
    ensures Encodable(Map(Flatten(table))) && |Flatten(table)| <= 32 && |Encode(Map(Flatten(table)))| <= 329
  {
    FewKeys(table);
    SmallTable(table);
    var flat := Flatten(table);
    assert |Encode(Map(flat))| == |EncodeHead(5, |flat| / 2)| + |EncodeItems(flat)|;
  }

  /** However long the list, the map of a proposal has at most 16 entries and can be written. */
  lemma MapEncodable(offers: seq<Offer>)
    requires AllSupported(offers)
    ensures ToMap(offers).Some? && Encodable(Map(ToMap(offers).value))
    ensures |ToMap(offers).value| <= 2 * 16 && |Encode(Map(ToMap(offers).value))| <= 329
  {
    ToPairsPointwise(offers);
    var pairs := ToPairs(offers).value;
    var back := Kept(offers, pairs);
    var table := Collect(pairs);
    CollectSorts(pairs);
    EntriesAreSmall(back, table);
    TableEncodable(table);
  }
}

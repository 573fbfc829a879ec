/** Octet strings, big-endian numbers and concatenation: what every layer of the stack shares. */
module Bytes {
  type Byte = x: int | 0 <= x < 256

  type Octets = seq<Byte>

  datatype Option<+T> = None | Some(value: T) {
    function GetOr(default: T): T {
      if Some? then value else default
    }
  }

  /** 256 to the power n: the number of values n octets can hold. */
  function Pow256(n: nat): (p: nat)
    ensures p >= 1
  {
    if n == 0 then 1 else 256 * Pow256(n - 1)
  }

  /** The low n octets of x, most significant first (a truncating cast followed by a network-order write). */
  function BigEndian(x: nat, n: nat): (s: Octets)
    ensures |s| == n
  {
    if n == 0 then [] else BigEndian(x / 256, n - 1) + [x % 256]
  }

  function FromBigEndian(s: Octets): (x: nat)
    ensures x < Pow256(|s|)
  {
    if s == [] then 0 else FromBigEndian(s[..|s| - 1]) * 256 + s[|s| - 1]
  }

  /** Numbers that fit n octets survive the round trip. */
  lemma {:induction false} BigEndianRoundTrip(x: nat, n: nat)
    requires x < Pow256(n)
    ensures FromBigEndian(BigEndian(x, n)) == x
  {
    if n > 0 {
      BigEndianRoundTrip(x / 256, n - 1);
      assert BigEndian(x, n)[..n - 1] == BigEndian(x / 256, n - 1);
    }
  }

  /** A two-octet field holds the number modulo 2^16. */
  lemma {:induction false} TwoOctets(x: nat)
    ensures FromBigEndian(BigEndian(x, 2)) == x % 0x1_0000
  {
    var s := BigEndian(x, 2);
    assert s == [(x / 256) % 256, x % 256] by {
      assert BigEndian(x / 256, 1) == BigEndian(x / 256 / 256, 0) + [(x / 256) % 256];
    }
    assert FromBigEndian(s[..1]) == s[0] by {
      assert s[..1][..0] == [];
    }
  }

  lemma Pow256Values()
    ensures Pow256(1) == 0x100 && Pow256(2) == 0x1_0000 && Pow256(4) == 0x1_0000_0000
    ensures Pow256(8) == 0x1_0000_0000_0000_0000
  {
    assert Pow256(3) == 0x100_0000;
    assert Pow256(5) == 0x100_0000_0000;
    assert Pow256(6) == 0x1_0000_0000_0000;
    assert Pow256(7) == 0x100_0000_0000_0000;
  }

  /** The pieces of a cut put back together. */
  function Concat(pieces: seq<Octets>): Octets {
    if pieces == [] then [] else pieces[0] + Concat(pieces[1..])
  }

  lemma {:induction false} ConcatAppend(a: seq<Octets>, b: seq<Octets>)
    ensures Concat(a + b) == Concat(a) + Concat(b)
  {
    if a == [] {
      assert a + b == b;
    } else {
      var c := a + b;
      assert c[0] == a[0] && c[1..] == a[1..] + b;
      ConcatAppend(a[1..], b);
    }
  }

  lemma ConcatOne(f: Octets)
    ensures Concat([f]) == f
  {
    assert Concat([f]) == f + Concat([]);
  }

  lemma Associative<T>(a: seq<T>, b: seq<T>, c: seq<T>)
    ensures (a + b) + c == a + (b + c)
  {
  }
}

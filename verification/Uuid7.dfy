/** Time-ordered identifiers, laid out as in section 5.7 of RFC 9562: 48 bits of Unix
    milliseconds, version 7, 12 random bits, variant binary 10, 62 random bits. */
module Uuid7 {
  import opened Options

  const LIMIT := 0x1_0000_0000_0000  // 2^48

  lemma NextByte(b: bv8)
    requires b as int < 255
    ensures (b + 1) as int == b as int + 1
  {
  }

  /** The byte with a given value. */
  function ByteOf(n: int): (b: bv8)
    requires 0 <= n < 256
    ensures b as int == n
  {
    if n == 0 then 0
    else
      NextByte(ByteOf(n - 1));
      ByteOf(n - 1) + 1
  }

  function BigEndian(n: nat, len: nat): (r: seq<bv8>)
    ensures |r| == len
  {
    if len == 0 then [] else BigEndian(n / 256, len - 1) + [ByteOf(n % 256)]
  }

  function Decode(bs: seq<bv8>): int {
    if bs == [] then 0 else Decode(bs[..|bs| - 1]) * 256 + bs[|bs| - 1] as int
  }

  function Uuid(ms: nat, rand: seq<bv8>): (r: seq<bv8>)
    requires |rand| == 10
    ensures |r| == 16
  {
    BigEndian(ms, 6) + [(rand[0] & 0x0F) | 0x70, rand[1], (rand[2] & 0x3F) | 0x80] + rand[3..]
  }

  /** The first 48 bits come from the clock; the rest from the random source with the version
      and variant bits overwritten in place.  A clock past the year 10889 overflows. */
  method Generate(ms: nat, rand: seq<bv8>) returns (id: Option<seq<bv8>>)
    requires |rand| == 10
    ensures id.None? <==> ms >= 0x1_0000_0000_0000
    ensures id.Some? ==> id.value == Uuid(ms, rand)
  {
    if ms >= LIMIT {
      return None;
    }
    var raw := BigEndian(ms, 6) + rand;
    var b := new bv8[16](i requires 0 <= i < 16 => raw[i]);
    assert b[..] == raw;
    b[6] := (b[6] & 0x0F) | 0x70;
    b[8] := (b[8] & 0x3F) | 0x80;
    assert b[..] == Uuid(ms, rand);
    return Some(b[..]);
  }

  function Pow256(k: nat): nat {
    if k == 0 then 1 else 256 * Pow256(k - 1)
  }

  lemma {:induction false} DecodeBigEndian(n: nat, len: nat)
    requires n < Pow256(len)
    ensures Decode(BigEndian(n, len)) == n
  {
    if len > 0 {
      DecodeBigEndian(n / 256, len - 1);
      var front := BigEndian(n / 256, len - 1);
      assert (front + [ByteOf(n % 256)])[..|front|] == front;
    }
  }

  lemma Limit48()
    ensures Pow256(6) == LIMIT
  {
    assert Pow256(1) == 256;
    assert Pow256(2) == 256 * Pow256(1);
    assert Pow256(3) == 256 * Pow256(2);
    assert Pow256(4) == 256 * Pow256(3);
    assert Pow256(5) == 256 * Pow256(4);
    assert Pow256(6) == 256 * Pow256(5);
  }

  lemma VersionBits(b: bv8)
    ensures ((b & 0x0F) | 0x70) >> 4 == 7 && ((b & 0x0F) | 0x70) & 0x0F == b & 0x0F
  {
  }

  lemma VariantBits(b: bv8)
    ensures ((b & 0x3F) | 0x80) >> 6 == 2 && ((b & 0x3F) | 0x80) & 0x3F == b & 0x3F
  {
  }

  /** Bit-exact layout. */
  lemma Layout(ms: nat, rand: seq<bv8>)
    requires |rand| == 10 && ms < 0x1_0000_0000_0000
    ensures var id := Uuid(ms, rand);
            && Decode(id[..6]) == ms
            && id[6] >> 4 == 7 && id[8] >> 6 == 2
            && id[6] & 0x0F == rand[0] & 0x0F && id[7] == rand[1] && id[8] & 0x3F == rand[2] & 0x3F
            && id[9..] == rand[3..]
  {
    Limit48();
    DecodeBigEndian(ms, 6);
    assert Uuid(ms, rand)[..6] == BigEndian(ms, 6);
    VersionBits(rand[0]);
    VariantBits(rand[2]);
  }

  /** Two identifiers coincide exactly when the clock and the 74 random bits that survive the
      masks agree. */
  lemma CoincideIff(ms: nat, rand: seq<bv8>, ms': nat, rand': seq<bv8>)
    requires |rand| == 10 && |rand'| == 10 && ms < LIMIT && ms' < LIMIT
    ensures Uuid(ms, rand) == Uuid(ms', rand')
            <==> && ms == ms' && rand[0] & 0x0F == rand'[0] & 0x0F && rand[1] == rand'[1]
                 && rand[2] & 0x3F == rand'[2] & 0x3F && rand[3..] == rand'[3..]
  {
    Layout(ms, rand);
    Layout(ms', rand');
  }

  /** Byte-wise order, as an index on the identifiers compares them. */
  ghost predicate LexLess(a: seq<bv8>, b: seq<bv8>)
    requires |a| == |b|
  {
    exists k :: 0 <= k < |a| && a[..k] == b[..k] && (a[k] as int) < (b[k] as int)
  }

  lemma ByteRange(x: bv8, y: bv8)
    ensures 0 <= x as int < 256 && 0 <= y as int < 256
    ensures x as int == y as int ==> x == y
  {
  }

  lemma {:induction false} DecodeOrder(a: seq<bv8>, b: seq<bv8>)
    requires |a| == |b| && Decode(a) < Decode(b)
    ensures LexLess(a, b)
  {
    var n := |a| - 1;
    ByteRange(a[n], b[n]);
    if Decode(a[..n]) < Decode(b[..n]) {
      DecodeOrder(a[..n], b[..n]);
      var k :| 0 <= k < n && a[..n][..k] == b[..n][..k] && (a[..n][k] as int) < (b[..n][k] as int);
      assert a[..k] == a[..n][..k] && b[..k] == b[..n][..k];
    } else {
      DecodeInjective(a[..n], b[..n]);
    }
  }

  lemma {:induction false} DecodeInjective(a: seq<bv8>, b: seq<bv8>)
    requires |a| == |b| && Decode(a) == Decode(b)
    ensures a == b
  {
    if a != [] {
      var n := |a| - 1;
      ByteRange(a[n], b[n]);
      DecodeInjective(a[..n], b[..n]);
      assert a == a[..n] + [a[n]] && b == b[..n] + [b[n]];
    }
  }

  /** An earlier millisecond gives a smaller identifier, whatever the random bits. */
  lemma TimeOrdered(ms: nat, rand: seq<bv8>, ms': nat, rand': seq<bv8>)
    requires |rand| == 10 && |rand'| == 10 && ms < ms' < LIMIT
    ensures LexLess(Uuid(ms, rand), Uuid(ms', rand'))
  {
    Layout(ms, rand);
    Layout(ms', rand');
    var a, b := Uuid(ms, rand), Uuid(ms', rand');
    DecodeOrder(a[..6], b[..6]);
    var k :| 0 <= k < 6 && a[..6][..k] == b[..6][..k] && (a[..6][k] as int) < (b[..6][k] as int);
    assert a[..k] == a[..6][..k] && b[..k] == b[..6][..k];
  }

  /** And so a smaller identifier is never from a later millisecond. */
  lemma OrderIsAsymmetric(a: seq<bv8>, b: seq<bv8>)
    requires |a| == |b| && LexLess(a, b)
    ensures !LexLess(b, a)
  {
    var k :| 0 <= k < |a| && a[..k] == b[..k] && (a[k] as int) < (b[k] as int);
    forall j | 0 <= j < |a| && b[..j] == a[..j] ensures (a[j] as int) <= (b[j] as int) {
      AgreeBefore(a, b, j);
      AgreeBefore(a, b, k);
    }
  }

  lemma AgreeBefore(a: seq<bv8>, b: seq<bv8>, n: nat)
    requires n <= |a| == |b| && a[..n] == b[..n]
    ensures forall i :: 0 <= i < n ==> a[i] == b[i]
  {
    forall i | 0 <= i < n ensures a[i] == b[i] {
      assert a[..n][i] == b[..n][i];
    }
  }

  lemma SmallerIsNotLater(ms: nat, rand: seq<bv8>, ms': nat, rand': seq<bv8>)
    requires |rand| == 10 && |rand'| == 10 && ms < LIMIT && ms' < LIMIT
    requires LexLess(Uuid(ms, rand), Uuid(ms', rand'))
    ensures ms <= ms'
  {
    if ms' < ms {
      TimeOrdered(ms', rand', ms, rand);
      OrderIsAsymmetric(Uuid(ms, rand), Uuid(ms', rand'));
    }
  }
}

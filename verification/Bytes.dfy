/** Bytes, and the little-endian integers that the file formats and packets are made of. */
module Bytes {

  type byte = b: int | 0 <= b < 256

  /** 256 to the power `width`: the number of values that fit in `width` bytes. */
  function Span(width: nat): (s: nat)
    ensures s >= 1
  {
    if width == 0 then 1 else 256 * Span(width - 1)
  }

  /** The low `width` bytes of `n`, least significant first: a C++ cast to the narrower type, then a write. */
  function Encode(n: nat, width: nat): (bs: seq<byte>)
    ensures |bs| == width
  {
    if width == 0 then [] else [n % 256] + Encode(n / 256, width - 1)
  }

  function Decode(bs: seq<byte>): (n: nat)
    ensures n < Span(|bs|)
  {
    if bs == [] then 0 else bs[0] + 256 * Decode(bs[1..])
  }

  /** Reading back gives the value reduced to the width, so exactly the values that fit survive. */
  lemma {:induction false} DecodeEncode(n: nat, width: nat)
    ensures Decode(Encode(n, width)) == n % Span(width)
    ensures Decode(Encode(n, width)) == n <==> n < Span(width)
  {
    if width > 0 {
      DecodeEncode(n / 256, width - 1);
      assert Encode(n, width)[1..] == Encode(n / 256, width - 1);
      SplitMod(n, Span(width - 1));
    } else {
      assert n % 1 == 0;
    }
  }

  /** The least significant byte comes first. */
  lemma LeastFirst(a: byte, b: byte, c: byte, d: byte)
    ensures Decode([a, b]) == a + 256 * b
    ensures Decode([a, b, c, d]) == a + 256 * b + 65536 * c + 16777216 * d
  {
    assert [a, b][1..] == [b] && [b][1..] == [];
    assert [a, b, c, d][1..] == [b, c, d] && [b, c, d][1..] == [c, d] && [c, d][1..] == [d] && [d][1..] == [];
    assert Decode([d]) == d && Decode([c, d]) == c + 256 * d && Decode([b]) == b;
  }

  /** Writing back what was read gives the same bytes. */
  lemma {:induction false} EncodeDecode(bs: seq<byte>)
    ensures Encode(Decode(bs), |bs|) == bs
  {
    if bs != [] {
      EncodeDecode(bs[1..]);
      var n := Decode(bs);
      assert n % 256 == bs[0] && n / 256 == Decode(bs[1..]);
    }
  }

  lemma SplitMod(n: nat, s: nat)
    requires s >= 1
    ensures n % (256 * s) == n % 256 + 256 * (n / 256 % s)
  {
    var hi, lo := n / 256, n % 256;
    var q, r := hi / s, hi % s;
    assert n == (256 * s) * q + (lo + 256 * r) by {
      assert hi == s * q + r;
      assert 256 * (s * q) == (256 * s) * q;
    }
    assert 0 <= lo + 256 * r < 256 * s;
    ModUnique(n, 256 * s, q, lo + 256 * r);
  }

  lemma ModUnique(n: int, d: int, q: int, r: int)
    requires 0 <= r < d && n == d * q + r
    ensures n % d == r && n / d == q
  {
    var e := n / d - q;
    assert d * e == r - n % d by { assert n == d * (n / d) + n % d; }
    assert e >= 1 ==> d * e >= d;
    assert e <= -1 ==> d * e <= -d;
  }

  lemma SpanValues()
    ensures Span(1) == 0x100 && Span(2) == 0x1_0000
    ensures Span(4) == 0x1_0000_0000 && Span(8) == 0x1_0000_0000_0000_0000
  {
    assert Span(2) == 0x1_0000;
    assert Span(3) == 0x100_0000;
    assert Span(4) == 0x1_0000_0000;
    assert Span(5) == 0x100_0000_0000;
    assert Span(6) == 0x1_0000_0000_0000;
    assert Span(7) == 0x100_0000_0000_0000;
  }
}

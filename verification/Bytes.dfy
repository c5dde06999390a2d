/** Bytes and the fixed-size numbers that file formats store in them. */
module Bytes {
  type Byte = b: int | 0 <= b < 256

  const LIMIT_16 := 0x1_0000
  const LIMIT_32 := 0x1_0000_0000

  function Reversed(s: seq<Byte>): (r: seq<Byte>)
    ensures |r| == |s| && forall i | 0 <= i < |s| :: r[i] == s[|s| - 1 - i]
  {
    seq(|s|, i requires 0 <= i < |s| => s[|s| - 1 - i])
  }

  // The value of big-endian bytes.
  function BigEndian(s: seq<Byte>): nat {
    if s == [] then 0 else BigEndian(s[..|s| - 1]) * 256 + s[|s| - 1]
  }

  function LittleEndian(s: seq<Byte>): nat {
    BigEndian(Reversed(s))
  }

  function BigEndianBytes(n: nat, size: nat): (s: seq<Byte>)
    ensures |s| == size
  {
    if size == 0 then [] else BigEndianBytes(n / 256, size - 1) + [n % 256]
  }

  function LittleEndianBytes(n: nat, size: nat): (s: seq<Byte>)
    ensures |s| == size
  {
    Reversed(BigEndianBytes(n, size))
  }

  function Power256(size: nat): nat {
    if size == 0 then 1 else 256 * Power256(size - 1)
  }

  lemma {:induction false} BytesOfNumber(n: nat, size: nat)
    requires n < Power256(size)
    ensures BigEndian(BigEndianBytes(n, size)) == n
  {
    if size > 0 {
      var s := BigEndianBytes(n, size);
      assert s[..|s| - 1] == BigEndianBytes(n / 256, size - 1);
      BytesOfNumber(n / 256, size - 1);
    }
  }

  lemma {:induction false} NumberOfBytes(s: seq<Byte>)
    ensures BigEndianBytes(BigEndian(s), |s|) == s && BigEndian(s) < Power256(|s|)
  {
    if s != [] {
      var init, last := s[..|s| - 1], s[|s| - 1];
      NumberOfBytes(init);
      assert (BigEndian(init) * 256 + last) / 256 == BigEndian(init);
      assert (BigEndian(init) * 256 + last) % 256 == last;
      assert s == init + [last];
    }
  }

  lemma ReversedTwice(s: seq<Byte>)
    ensures Reversed(Reversed(s)) == s
  {
  }

  /** Four bytes and the numbers below 2^32 are the same thing, in either order. */
  lemma FourBytes(n: nat, s: seq<Byte>)
    requires n < LIMIT_32 && |s| == 4
    ensures BigEndian(BigEndianBytes(n, 4)) == n && BigEndianBytes(BigEndian(s), 4) == s && BigEndian(s) < LIMIT_32
    ensures LittleEndian(LittleEndianBytes(n, 4)) == n && LittleEndianBytes(LittleEndian(s), 4) == s
      && LittleEndian(s) < LIMIT_32
  {
    assert Power256(4) == LIMIT_32 by {
      assert Power256(1) == 256 && Power256(2) == 65536 && Power256(3) == 16777216;
    }
    BytesOfNumber(n, 4);
    NumberOfBytes(s);
    NumberOfBytes(Reversed(s));
    ReversedTwice(BigEndianBytes(n, 4));
    ReversedTwice(s);
  }

  lemma TwoBytes(n: nat, s: seq<Byte>)
    requires n < LIMIT_16 && |s| == 2
    ensures BigEndian(BigEndianBytes(n, 2)) == n && BigEndianBytes(BigEndian(s), 2) == s && BigEndian(s) < LIMIT_16
  {
    assert Power256(2) == LIMIT_16 by {
      assert Power256(1) == 256;
    }
    BytesOfNumber(n, 2);
    NumberOfBytes(s);
  }

  lemma DigitsOf(s: seq<Byte>)
    requires s != []
    ensures BigEndian(s) == BigEndian(s[..|s| - 1]) * 256 + s[|s| - 1]
  {
  }

  /** The most significant byte comes first in big-endian numbers, and last in little-endian ones. */
  lemma BytesHaveWeights(s: seq<Byte>)
    ensures |s| == 2 ==> BigEndian(s) == s[0] as int * 0x100 + s[1] && LittleEndian(s) == s[1] as int * 0x100 + s[0]
    ensures |s| == 4 ==>
      && BigEndian(s) == s[0] as int * 0x100_0000 + s[1] as int * 0x1_0000 + s[2] as int * 0x100 + s[3]
      && LittleEndian(s) == s[3] as int * 0x100_0000 + s[2] as int * 0x1_0000 + s[1] as int * 0x100 + s[0]
  {
    if |s| == 2 {
      TwoDigits(s);
      TwoDigits(Reversed(s));
    } else if |s| == 4 {
      FourDigits(s);
      FourDigits(Reversed(s));
    }
  }

  lemma TwoDigits(s: seq<Byte>)
    requires |s| == 2
    ensures BigEndian(s) == s[0] as int * 0x100 + s[1]
  {
    DigitsOf(s);
    DigitsOf(s[..1]);
    assert s[..1][..0] == [];
  }

  lemma FourDigits(s: seq<Byte>)
    requires |s| == 4
    ensures BigEndian(s) == s[0] as int * 0x100_0000 + s[1] as int * 0x1_0000 + s[2] as int * 0x100 + s[3]
  {
    hide BigEndian;
    DigitsOf(s);
    DigitsOf(s[..3]);
    assert s[..3][..2] == s[..2];
    TwoDigits(s[..2]);
  }

  lemma SliceOfSlice(s: seq<Byte>, lo: nat, hi: nat, a: nat, b: nat)
    requires a <= b && lo + b <= hi <= |s|
    ensures s[lo..hi][a..b] == s[lo + a..lo + b]
  {
    var x, y := s[lo..hi][a..b], s[lo + a..lo + b];
    assert |x| == |y| && forall i | 0 <= i < |x| :: x[i] == y[i];
  }

  lemma Pieces(s: seq<Byte>, a: nat, b: nat, c: nat, d: nat)
    requires a <= b <= c <= d <= |s|
    ensures s == s[..a] + s[a..b] + s[b..c] + s[c..d] + s[d..]
  {
  }

  lemma PiecesOf(p: seq<Byte>, q: seq<Byte>, r: seq<Byte>, t: seq<Byte>, u: seq<Byte>)
    ensures var s, a, b, c, d := p + q + r + t + u, |p|, |p| + |q|, |p| + |q| + |r|, |p| + |q| + |r| + |t|;
            s[..a] == p && s[a..b] == q && s[b..c] == r && s[c..d] == t && s[d..] == u
  {
  }
}

/** Bytes, and numbers of a fixed width written with the most significant byte first. */
module WireBytes {

  type byte = x: nat | x < 0x100
  type Bytes = seq<byte>

  function BigEndian(n: nat, width: nat): (b: Bytes)
    ensures |b| == width
  {
    if width == 0 then [] else BigEndian(n / 0x100, width - 1) + [n % 0x100]
  }

  function FromBigEndian(b: Bytes): nat {
    if b == [] then 0 else FromBigEndian(b[..|b| - 1]) * 0x100 + b[|b| - 1]
  }

  function Power(width: nat): nat {
    if width == 0 then 1 else 0x100 * Power(width - 1)
  }

  lemma PowersOfWidths()
    ensures Power(2) == 0x1_0000 && Power(4) == 0x1_0000_0000 && Power(8) == 0x1_0000_0000_0000_0000
  {
    assert Power(4) == 0x1_0000_0000;
  }

  lemma {:induction false} BigEndianRoundTrip(n: nat, width: nat)
    requires n < Power(width)
    ensures FromBigEndian(BigEndian(n, width)) == n
  {
    if width > 0 {
      BigEndianRoundTrip(n / 0x100, width - 1);
      assert BigEndian(n, width)[..width - 1] == BigEndian(n / 0x100, width - 1);
    }
  }

  /** Every string of bytes is the one way to write some number in its width. */
  lemma {:induction false} NumbersFillTheirWidth(b: Bytes)
    ensures FromBigEndian(b) < Power(|b|) && BigEndian(FromBigEndian(b), |b|) == b
  {
    if b != [] {
      var high, low := b[..|b| - 1], b[|b| - 1];
      NumbersFillTheirWidth(high);
      var n := FromBigEndian(b);
      assert n / 0x100 == FromBigEndian(high) && n % 0x100 == low;
      assert b == high + [low];
    }
  }

  /** Two numbers are read where they were written, whatever follows. */
  lemma NumbersAreRead(n: nat, m: nat, width: nat, a: Bytes, b: Bytes)
    requires n < Power(width) && m < Power(width) && BigEndian(n, width) + a == BigEndian(m, width) + b
    ensures n == m && a == b
  {
    BigEndianRoundTrip(n, width);
    BigEndianRoundTrip(m, width);
    assert (BigEndian(n, width) + a)[..width] == BigEndian(n, width);
    assert (BigEndian(m, width) + b)[..width] == BigEndian(m, width);
    assert (BigEndian(n, width) + a)[width..] == a && (BigEndian(m, width) + b)[width..] == b;
  }
}

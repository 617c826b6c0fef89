/**
 Natural numbers as big-endian byte strings.
 */
module ByteNumbers {

  newtype Byte = x: int | 0 <= x < 256

  const TWO_TO_64: nat := 0x1_0000_0000_0000_0000

  /** The last `count` base-256 digits of `n`, most significant first. */
  function BigEndian(n: nat, count: nat): (bytes: seq<Byte>)
    ensures |bytes| == count
  {
    if count == 0 then [] else BigEndian(n / 256, count - 1) + [(n % 256) as Byte]
  }

  function Power256(count: nat): (p: nat)
    ensures p > 0
  {
    if count == 0 then 1 else 256 * Power256(count - 1)
  }

  function FromBigEndian(bytes: seq<Byte>): (n: nat) {
    if |bytes| == 0 then 0
    else 256 * FromBigEndian(bytes[..|bytes| - 1]) + bytes[|bytes| - 1] as nat
  }

  lemma MulMod(q: nat, r: nat, p: nat)
    requires p > 0 && r < 256
    ensures (256 * q + r) % (256 * p) == 256 * (q % p) + r
  {
    var k := q / p;
    assert q == k * p + q % p;
    assert 256 * q + r == (256 * p) * k + (256 * (q % p) + r);
    DivModUnique(256 * q + r, 256 * p, k, 256 * (q % p) + r);
  }

  lemma DivModUnique(n: nat, d: nat, q: nat, r: nat)
    requires d > 0 && n == d * q + r && r < d
    ensures n / d == q && n % d == r
  {
    assert n == d * (n / d) + n % d;
    if n / d < q {
      assert d * (n / d) + d <= d * q by { assert (n / d) + 1 <= q; MulMono(d, n / d + 1, q); }
      assert false;
    } else if n / d > q {
      MulMono(d, q + 1, n / d);
      assert false;
    }
  }

  lemma MulMono(d: nat, x: nat, y: nat)
    requires x <= y
    ensures d * x <= d * y
  {}

  lemma FromBigEndianSnoc(bytes: seq<Byte>, digit: nat)
    requires digit < 256
    ensures FromBigEndian(bytes + [digit as Byte]) == 256 * FromBigEndian(bytes) + digit
  {
  }

  /** The length field is the length: reading the bytes back gives the number modulo 2^(8*count). */
  lemma {:induction false} BigEndianReadsBack(n: nat, count: nat)
    ensures FromBigEndian(BigEndian(n, count)) == n % Power256(count)
  {
    if count > 0 {
      BigEndianReadsBack(n / 256, count - 1);
      FromBigEndianSnoc(BigEndian(n / 256, count - 1), n % 256);
      MulMod(n / 256, n % 256, Power256(count - 1));
    }
  }

  lemma Power256Of8()
    ensures Power256(8) == TWO_TO_64
  {
  }

  function Power2(count: nat): (p: nat)
    ensures p > 0
  {
    if count == 0 then 1 else 2 * Power2(count - 1)
  }

  /** A logical right shift of an unsigned integer. */
  function ShiftRight(n: nat, count: nat): int { n / Power2(count) }

  lemma {:induction false} Power2OfBytes(count: nat)
    ensures Power2(8 * count) == Power256(count)
  {
    if count > 0 {
      Power2OfBytes(count - 1);
      var k := 8 * (count - 1);
      assert Power2(k + 8) == 2 * Power2(k + 7) == 4 * Power2(k + 6) == 8 * Power2(k + 5) == 16 * Power2(k + 4);
      assert Power2(k + 4) == 2 * Power2(k + 3) == 4 * Power2(k + 2) == 8 * Power2(k + 1) == 16 * Power2(k);
    }
  }

  lemma DivDiv(n: nat, p: nat)
    requires p > 0
    ensures (n / 256) / p == n / (256 * p)
  {
    var q, r := (n / 256) / p, (n / 256) % p;
    assert n / 256 == p * q + r;
    assert n == (256 * p) * q + (256 * r + n % 256);
    DivModUnique(n, 256 * p, q, 256 * r + n % 256);
  }

  /** Each byte of the length field is what the shift-and-truncate loop stores there. */
  lemma {:induction false} BigEndianByte(n: nat, count: nat, i: nat)
    requires i < count
    ensures BigEndian(n, count)[i] == (ShiftRight(n, 8 * (count - 1 - i)) % 256) as Byte
  {
    if i < count - 1 {
      BigEndianByte(n / 256, count - 1, i);
      var p := Power256(count - 2 - i);
      Power2OfBytes(count - 2 - i);
      Power2OfBytes(count - 1 - i);
      DivDiv(n, p);
      assert ShiftRight(n / 256, 8 * (count - 2 - i)) == ShiftRight(n, 8 * (count - 1 - i));
    }
  }
}

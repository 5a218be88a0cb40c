/** Bytes, fixed-width integers in both byte orders, and the Option/Result shapes the other modules share. */
module Bytes {

  datatype Option<+T> = None | Some(value: T)

  datatype Result<+T, +E> = Ok(value: T) | Err(error: E)

  type byte = x: int | 0 <= x < 0x100

  type Bytes = seq<byte>

  const WORD32: int := 0x1_0000_0000
  const WORD48: int := 0x1_0000_0000_0000
  const WORD64: int := 0x1_0000_0000_0000_0000

  /** Little-endian reading of a whole byte string. */
  function LittleEndian(b: Bytes): (n: nat) {
    if b == [] then 0 else b[0] + 0x100 * LittleEndian(b[1..])
  }

  /** Big-endian reading of a whole byte string. */
  function BigEndian(b: Bytes): (n: nat) {
    if b == [] then 0 else 0x100 * BigEndian(b[..|b| - 1]) + b[|b| - 1]
  }

  function Power256(k: nat): (n: nat)
    ensures n > 0
  {
    if k == 0 then 1 else 0x100 * Power256(k - 1)
  }

  lemma Power256Values()
    ensures Power256(4) == WORD32 && Power256(6) == WORD48 && Power256(8) == WORD64
  {
    assert Power256(2) == 0x1_0000;
    assert Power256(4) == WORD32;
    assert Power256(6) == WORD48;
    assert Power256(8) == WORD64;
  }

  /** The `k` low-order bytes of `n`, least significant first. */
  function ToLittleEndian(n: nat, k: nat): (b: Bytes)
    ensures |b| == k
  {
    if k == 0 then [] else [n % 0x100] + ToLittleEndian(n / 0x100, k - 1)
  }

  /** The `k` low-order bytes of `n`, most significant first. */
  function ToBigEndian(n: nat, k: nat): (b: Bytes)
    ensures |b| == k
  {
    if k == 0 then [] else ToBigEndian(n / 0x100, k - 1) + [n % 0x100]
  }

  /** Two, four and six bytes as numbers. */
  function Octets2(b0: int, b1: int): (n: int) { b0 + 0x100 * b1 }

  function Octets4(b0: int, b1: int, b2: int, b3: int): (n: int) {
    b0 + 0x100 * b1 + 0x1_0000 * b2 + 0x100_0000 * b3
  }

  function Octets6(b0: int, b1: int, b2: int, b3: int, b4: int, b5: int): (n: int) {
    b0 + 0x100 * b1 + 0x1_0000 * b2 + 0x100_0000 * b3 + 0x1_0000_0000 * b4 + 0x100_0000_0000 * b5
  }

  /** The two byte orders, written out. */
  lemma {:induction false} WordsInNumbers(b: Bytes)
    ensures |b| == 2 ==> LittleEndian(b) == Octets2(b[0], b[1])
    ensures |b| == 4 ==> LittleEndian(b) == Octets4(b[0], b[1], b[2], b[3])
    ensures |b| == 2 ==> BigEndian(b) == Octets2(b[1], b[0])
    ensures |b| == 4 ==> BigEndian(b) == Octets4(b[3], b[2], b[1], b[0])
    ensures |b| == 6 ==> BigEndian(b) == Octets6(b[5], b[4], b[3], b[2], b[1], b[0])
  {
    if |b| == 2 || |b| == 4 {
      assert b[1..][1..] == b[2..];
      if |b| == 4 { WordsInNumbers(b[2..]); } else { assert LittleEndian(b[1..]) == b[1]; }
    }
    if |b| == 2 {
      assert b[..1][..0] == [] && BigEndian(b[..1]) == b[0];
    } else if |b| == 4 || |b| == 6 {
      var n := |b| - 2;
      WordsInNumbers(b[..n]);
      assert b[..n + 1][..n] == b[..n] && BigEndian(b[..n + 1]) == 0x100 * BigEndian(b[..n]) + b[n];
    }
  }

  lemma {:induction false} LittleEndianRoundTrip(b: Bytes)
    ensures LittleEndian(b) < Power256(|b|)
    ensures ToLittleEndian(LittleEndian(b), |b|) == b
  {
    if b != [] {
      LittleEndianRoundTrip(b[1..]);
      var n := LittleEndian(b);
      assert n % 0x100 == b[0] && n / 0x100 == LittleEndian(b[1..]);
      assert b == [b[0]] + b[1..];
    }
  }

  lemma {:induction false} FromLittleEndian(n: nat, k: nat)
    requires n < Power256(k)
    ensures LittleEndian(ToLittleEndian(n, k)) == n
  {
    if k > 0 {
      FromLittleEndian(n / 0x100, k - 1);
      var b := ToLittleEndian(n, k);
      assert b[1..] == ToLittleEndian(n / 0x100, k - 1);
    }
  }

  lemma {:induction false} BigEndianRoundTrip(b: Bytes)
    ensures BigEndian(b) < Power256(|b|)
    ensures ToBigEndian(BigEndian(b), |b|) == b
  {
    if b != [] {
      var front, last := b[..|b| - 1], b[|b| - 1];
      BigEndianRoundTrip(front);
      var n := BigEndian(b);
      assert n % 0x100 == last && n / 0x100 == BigEndian(front);
      assert b == front + [last];
    }
  }

  lemma {:induction false} FromBigEndian(n: nat, k: nat)
    requires n < Power256(k)
    ensures BigEndian(ToBigEndian(n, k)) == n
  {
    if k > 0 {
      FromBigEndian(n / 0x100, k - 1);
      var b := ToBigEndian(n, k);
      assert b[..|b| - 1] == ToBigEndian(n / 0x100, k - 1);
    }
  }
}

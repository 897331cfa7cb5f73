// The constants of BLAKE2b in veda/_utils/blake2/compression.py: what RFC 7693
// says about them, besides their digits.
module Blake2bConstants {
  import opened Bits
  import opened Blake2b

  const TWO64: nat := 0x1_0000_0000_0000_0000

  const PRIMES: seq<nat> := [2, 3, 5, 7, 11, 13, 17, 19]
  const ROOTS: seq<nat> := [1, 1, 2, 2, 3, 3, 4, 4]

  // Section 2.6: the first 64 bits of the fraction of the square root of the
  // n-th prime.
  lemma IvIsSquareRoot(n: nat)
    requires n < 8
    ensures var p, r := PRIMES[n], ROOTS[n];
            && r * r <= p < (r + 1) * (r + 1) && IV[n] < TWO64
            && var x := r * TWO64 + IV[n];
               x * x <= p * TWO64 * TWO64 < (x + 1) * (x + 1)
  {
    if n == 0 {
    } else if n == 1 {
    } else if n == 2 {
    } else if n == 3 {
    } else if n == 4 {
    } else if n == 5 {
    } else if n == 6 {
    } else {
    }
  }

  // Section 2.7: every round uses every word of the message block once.
  lemma SigmaPermutes(r: nat, k: nat)
    requires k < 16
    ensures k in Sigma(r)
  {
    if r % 10 < 5 {
      LowPermutes(r % 10, k);
    } else {
      HighPermutes(r % 10, k);
    }
  }

  lemma LowPermutes(n: nat, k: nat)
    requires n < 5 && k < 16
    ensures k in LowSigma(n)
  {
    if n == 0 {
    } else if n == 1 {
    } else if n == 2 {
    } else if n == 3 {
    } else {
    }
  }

  lemma HighPermutes(n: nat, k: nat)
    requires 5 <= n < 10 && k < 16
    ensures k in HighSigma(n)
  {
    if n == 5 {
    } else if n == 6 {
    } else if n == 7 {
    } else if n == 8 {
    } else {
    }
  }

  // Section 3.2: four columns, then four diagonals of the four by four words.
  lemma ColumnsThenDiagonals(i: nat)
    requires i < 4
    ensures PlaceOf(i) == Place(i, 4 + i, 8 + i, 12 + i)
    ensures PlaceOf(4 + i) == Place(i, 4 + (i + 1) % 4, 8 + (i + 2) % 4, 12 + (i + 3) % 4)
  {}

  // Section 3.2: the state and the constants, with the low word of the counter
  // in word 12, the high one in word 13, and word 14 inverted in the last block.
  lemma StartWords(h: seq<nat>, t0: nat, t1: nat, final: bool)
    requires |h| == 8
    ensures var v := Start(h, t0, t1, final);
            && v[..8] == h && v[8..12] == IV[..4] && v[15] == IV[7]
            && Xor(v[12], IV[4]) == t0 && Xor(v[13], IV[5]) == t1
            && v[14] == if final then TWO64 - 1 - IV[6] else IV[6]
  {
    XorCommutes(IV[4], t0);
    XorCommutes(IV[5], t1);
    XorUndoes(t0, IV[4]);
    XorUndoes(t1, IV[5]);
    Pow2Of64();
    XorOnes(IV[6], 64);
    hide Xor, Pow2;
  }

  // Section 3.1, on a single bit of each message word: the rotations by 32, 24,
  // 16 and 63 bits to the right show in what becomes of it.
  lemma MixMovesBits()
    ensures Mix(Quad(0, 0, 0, 0), 0, 1) == Quad(1, 0x2_0000_0000_0000, 0x1_0000_0000_0000, 0x1_0000_0000_0000)
    ensures Mix(Quad(0, 0, 0, 0), 1, 0) ==
            Quad(0x101, 0x0202_0002_0002_0200, 0x0101_0001_0001_0000, 0x0101_0000_0001_0000)
  {
    Powers();
    SumsFit(0, 0);
    SumsFit(0, 1);
    SumsFit(1, 0x100);
    SumsFit(0, 0x1_0000_0000_0000);
    SumsFit(0, 0x1_0000_0000);
    SumsFit(0x1_0000_0000, 0x0101_0000_0001_0000);
    XorWithZero();
    XorDisjoint(0x101, 1, 32);
    XorCommutes(0x1_0000_0000, 0x101);
    XorDisjoint(0x100, 0x0101_0001_0001, 16);
    hide Xor, Pow2, Sum;
    assert Rotr(0, 32) == Rotr(0, 24) == 0;
    assert Rotr(1, 16) == 0x1_0000_0000_0000 && Rotr(0x1_0000_0000_0000, 63) == 0x2_0000_0000_0000;
    assert Rotr(1, 32) == 0x1_0000_0000 && Rotr(0x1_0000_0000, 24) == 0x100;
    assert Rotr(0x1_0000_0101, 16) == 0x0101_0000_0001_0000;
    assert Rotr(0x0101_0001_0001_0100, 63) == 0x0202_0002_0002_0200;
    hide Rotr;
  }

  lemma SumsFit(x: nat, y: nat)
    requires x + y < TWO64
    ensures Sum(x, y) == x + y
  {
    Pow2Of64();
  }

  lemma XorWithZero()
    ensures forall x: nat :: Xor(0, x) == x == Xor(x, 0)
  {}

  lemma Powers()
    ensures Pow2(0) == 1 && Pow2(1) == 2
    ensures Pow2(16) == 0x1_0000 && Pow2(24) == 0x100_0000 && Pow2(32) == 0x1_0000_0000
    ensures Pow2(40) == 0x100_0000_0000 && Pow2(48) == 0x1_0000_0000_0000
    ensures Pow2(63) == 0x8000_0000_0000_0000
  {
    assert Pow2(4) == 0x10;
    PowAdd(4, 4);
    PowAdd(8, 8);
    PowAdd(8, 16);
    PowAdd(16, 16);
    PowAdd(8, 32);
    PowAdd(16, 32);
    Pow2Of64();
  }
}

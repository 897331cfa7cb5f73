// Bitwise operations on natural numbers of any size, as Python has them.
module Bits {
  function Pow2(k: nat): (p: nat)
    ensures p > 0
  {
    if k == 0 then 1 else 2 * Pow2(k - 1)
  }

  function And(x: nat, y: nat): nat {
    if x == 0 || y == 0 then 0 else (if x % 2 == 1 && y % 2 == 1 then 1 else 0) + 2 * And(x / 2, y / 2)
  }

  function Or(x: nat, y: nat): nat {
    if x == 0 then y else if y == 0 then x
    else (if x % 2 == 1 || y % 2 == 1 then 1 else 0) + 2 * Or(x / 2, y / 2)
  }

  function Xor(x: nat, y: nat): nat {
    if x == 0 then y else if y == 0 then x
    else (if x % 2 != y % 2 then 1 else 0) + 2 * Xor(x / 2, y / 2)
  }

  lemma QuotientNatural(x: nat, m: nat)
    requires m > 0
    ensures x / m >= 0
  {}

  function ShiftRight(x: nat, n: nat): nat {
    QuotientNatural(x, Pow2(n));
    x / Pow2(n)
  }

  function ShiftLeft(x: nat, n: nat): nat {
    x * Pow2(n)
  }

  lemma {:induction false} PowAdd(a: nat, b: nat)
    ensures Pow2(a + b) == Pow2(a) * Pow2(b)
  {
    if a > 0 {
      PowAdd(a - 1, b);
      assert Pow2(a) * Pow2(b) == 2 * (Pow2(a - 1) * Pow2(b));
    }
  }

  lemma Pow2Of64()
    ensures Pow2(64) == 0x1_0000_0000_0000_0000
  {
    assert Pow2(4) == 0x10;
    PowAdd(4, 4);
    assert Pow2(8) == 0x100;
    PowAdd(8, 8);
    assert Pow2(16) == 0x1_0000;
    PowAdd(16, 16);
    assert Pow2(32) == 0x1_0000_0000;
    PowAdd(32, 32);
  }

  lemma WholeMultiples(d: int, m: int)
    requires m >= 0
    ensures d >= 1 ==> d * m >= m
    ensures d <= -1 ==> d * m <= -m
  {
    assert d * m == (d - 1) * m + m == (d + 1) * m - m;
    assert d >= 1 ==> (d - 1) * m >= 0;
    assert d <= -1 ==> (d + 1) * m <= 0;
  }

  // Division with remainder is unique.
  lemma Divide(x: nat, m: nat, q: nat, r: nat)
    requires x == q * m + r && r < m
    ensures x / m == q && x % m == r
  {
    var d := x / m - q;
    assert x == (x / m) * m + x % m;
    assert d * m == r - x % m;
    WholeMultiples(d, m);
  }

  lemma ModDouble(x: nat, m: nat)
    requires m > 0
    ensures x % (2 * m) == x % 2 + 2 * (x / 2 % m)
  {
    var q, r := x / 2 / m, x / 2 % m;
    assert x / 2 == q * m + r;
    assert x == q * (2 * m) + (2 * r + x % 2);
    Divide(x, 2 * m, q, 2 * r + x % 2);
  }

  lemma ModOne(x: nat)
    ensures x % 1 == 0
  {}

  // Masking with an odd number keeps the lowest bit.
  lemma AndOdd(x: nat, half: nat)
    requires x > 0
    ensures And(x, 2 * half + 1) == x % 2 + 2 * And(x / 2, half)
  {
    assert (2 * half + 1) % 2 == 1 && (2 * half + 1) / 2 == half;
  }

  // Masking with all ones below bit k is taking the remainder.
  lemma {:induction false} AndOnes(x: nat, k: nat)
    ensures And(x, Pow2(k) - 1) == x % Pow2(k)
  {
    if k == 0 {
      ModOne(x);
    } else if x == 0 {
      Divide(0, Pow2(k), 0, 0);
    } else {
      var m := Pow2(k - 1);
      AndOnes(x / 2, k - 1);
      ModDouble(x, m);
      AndOdd(x, m - 1);
    }
  }

  // Joining numbers whose bits do not meet is adding them.
  lemma {:induction false} OrDisjoint(x: nat, y: nat, k: nat)
    requires x < Pow2(k)
    ensures Or(x, y * Pow2(k)) == x + y * Pow2(k)
  {
    if k > 0 && x > 0 {
      var z := y * Pow2(k - 1);
      assert y * Pow2(k) == 2 * z;
      OrDisjoint(x / 2, y, k - 1);
      if z == 0 {
        assert Or(x, 0) == x;
      } else {
        assert Or(x, 2 * z) == x % 2 + 2 * Or(x / 2, z);
      }
    }
  }

  lemma {:induction false} XorFits(x: nat, y: nat, k: nat)
    requires x < Pow2(k) && y < Pow2(k)
    ensures Xor(x, y) < Pow2(k)
  {
    if k > 0 && x > 0 && y > 0 {
      XorFits(x / 2, y / 2, k - 1);
    }
  }

  lemma {:induction false} XorCommutes(x: nat, y: nat)
    ensures Xor(x, y) == Xor(y, x)
  {
    if x > 0 && y > 0 {
      XorCommutes(x / 2, y / 2);
    }
  }

  lemma {:induction false} XorSelf(x: nat)
    ensures Xor(x, x) == 0
  {
    if x > 0 {
      XorSelf(x / 2);
    }
  }

  lemma XorParts(x: nat, y: nat)
    ensures Xor(x, y) % 2 == (if x % 2 != y % 2 then 1 else 0) && Xor(x, y) / 2 == Xor(x / 2, y / 2)
  {
    if x > 0 && y > 0 {
      BitAndHalf(if x % 2 != y % 2 then 1 else 0, Xor(x / 2, y / 2));
    } else {
      assert Xor(0, y / 2) == y / 2 && Xor(x / 2, 0) == x / 2;
    }
  }

  lemma BitAndHalf(bit: nat, half: nat)
    requires bit < 2
    ensures (bit + 2 * half) % 2 == bit && (bit + 2 * half) / 2 == half
  {}

  lemma SameParts(x: nat, y: nat)
    requires x % 2 == y % 2 && x / 2 == y / 2
    ensures x == y
  {}

  lemma {:induction false} XorUndoes(x: nat, y: nat)
    ensures Xor(Xor(x, y), y) == x
    decreases x + y
  {
    if x == 0 {
      XorSelf(y);
    } else if y > 0 {
      XorParts(x, y);
      XorParts(Xor(x, y), y);
      XorUndoes(x / 2, y / 2);
      SameParts(Xor(Xor(x, y), y), x);
    }
  }

  lemma {:induction false} XorDisjoint(x: nat, y: nat, k: nat)
    requires x < Pow2(k)
    ensures Xor(x, y * Pow2(k)) == x + y * Pow2(k)
  {
    if k > 0 && x > 0 {
      var z := y * Pow2(k - 1);
      assert y * Pow2(k) == 2 * z;
      XorDisjoint(x / 2, y, k - 1);
      if z == 0 {
        assert Xor(x, 0) == x;
      } else {
        assert Xor(x, 2 * z) == x % 2 + 2 * Xor(x / 2, z);
      }
    }
  }

  // Flipping all of k bits.
  lemma {:induction false} XorOnes(x: nat, k: nat)
    requires x < Pow2(k)
    ensures Xor(x, Pow2(k) - 1) == Pow2(k) - 1 - x
  {
    if k > 0 {
      var m: nat := Pow2(k - 1) - 1;
      XorOnes(x / 2, k - 1);
      BitAndHalf(1, m);
      XorParts(x, 1 + 2 * m);
      BitAndHalf(1 - x % 2, m - x / 2);
      hide Xor;
      SameParts(Xor(x, 1 + 2 * m), 1 - x % 2 + 2 * (m - x / 2));
    }
  }
}

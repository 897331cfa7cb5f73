// veda/_utils/blake2/compression.py: the compression function F of BLAKE2b on
// unbounded masked integers, against sections 2.1, 2.7, 3.1 and 3.2 of RFC 7693
// for any number of rounds.
module Blake2b {
  import opened Bits

  const WORDBITS: nat := 64

  // The words of the RFC: 64 bits.
  ghost predicate IsWord(w: nat) {
    w < Pow2(WORDBITS)
  }

  const IV: seq<nat> := [
    0x6A09E667F3BCC908, 0xBB67AE8584CAA73B, 0x3C6EF372FE94F82B, 0xA54FF53A5F1D36F1,
    0x510E527FADE682D1, 0x9B05688C2B3E6C1F, 0x1F83D9ABFB41BD6B, 0x5BE0CD19137E2179]

  // Row r % 10 of the message schedule.
  function Sigma(r: nat): (row: seq<nat>)
    ensures |row| == 16 && forall i :: 0 <= i < 16 ==> row[i] < 16
  {
    var n := r % 10;
    if n < 5 then LowSigma(n) else HighSigma(n)
  }

  function LowSigma(n: nat): (row: seq<nat>)
    ensures |row| == 16 && forall i :: 0 <= i < 16 ==> row[i] < 16
  {
    if n == 0 then [0, 1, 2, 3, 4, 5, 6, 7, 8, 9, 10, 11, 12, 13, 14, 15]
    else if n == 1 then [14, 10, 4, 8, 9, 15, 13, 6, 1, 12, 0, 2, 11, 7, 5, 3]
    else if n == 2 then [11, 8, 12, 0, 5, 2, 15, 13, 10, 14, 3, 6, 7, 1, 9, 4]
    else if n == 3 then [7, 9, 3, 1, 13, 12, 11, 14, 2, 6, 5, 10, 4, 0, 15, 8]
    else [9, 0, 5, 7, 2, 4, 10, 15, 14, 1, 11, 12, 6, 8, 3, 13]
  }

  function HighSigma(n: nat): (row: seq<nat>)
    ensures |row| == 16 && forall i :: 0 <= i < 16 ==> row[i] < 16
  {
    if n == 5 then [2, 12, 6, 10, 0, 11, 8, 3, 4, 13, 7, 5, 15, 14, 1, 9]
    else if n == 6 then [12, 5, 1, 15, 14, 13, 4, 10, 0, 7, 6, 3, 9, 2, 8, 11]
    else if n == 7 then [13, 11, 7, 14, 12, 1, 3, 9, 5, 0, 15, 4, 8, 6, 2, 10]
    else if n == 8 then [6, 15, 14, 9, 11, 3, 0, 8, 12, 2, 13, 7, 1, 4, 10, 5]
    else [10, 2, 8, 4, 7, 6, 1, 5, 15, 11, 9, 14, 3, 12, 13, 0]
  }

  //
  // RFC 7693 on words
  //

  // Section 2.1: sums are modulo 2^64; rotation moves the low n bits to the top.
  function Sum(x: nat, y: nat): (w: nat)
    ensures IsWord(w)
  {
    (x + y) % Pow2(WORDBITS)
  }

  function Rotr(w: nat, n: nat): nat
    requires n <= WORDBITS
  {
    QuotientNatural(w, Pow2(n));
    w / Pow2(n) + (w % Pow2(n)) * Pow2(WORDBITS - n)
  }

  datatype Quad = Quad(a: nat, b: nat, c: nat, d: nat)

  // The mixing function G of section 3.1 on its four words.
  function Mix(q: Quad, x: nat, y: nat): Quad {
    var a1 := Sum(q.a, q.b + x);
    var d1 := Rotr(Xor(q.d, a1), 32);
    var c1 := Sum(q.c, d1);
    var b1 := Rotr(Xor(q.b, c1), 24);
    var a2 := Sum(a1, b1 + y);
    var d2 := Rotr(Xor(d1, a2), 16);
    var c2 := Sum(c1, d2);
    var b2 := Rotr(Xor(b1, c2), 63);
    Quad(a2, b2, c2, d2)
  }

  ghost predicate Words(s: seq<nat>, n: nat) {
    |s| == n && forall i :: 0 <= i < n ==> IsWord(s[i])
  }

  // Which words of the state a mixing works on.
  datatype Place = Place(a: nat, b: nat, c: nat, d: nat)

  predicate Proper(p: Place) {
    p.a < 4 <= p.b < 8 <= p.c < 12 <= p.d < 16
  }

  function At(v: seq<nat>, p: Place): Quad
    requires |v| == 16 && Proper(p)
  {
    Quad(v[p.a], v[p.b], v[p.c], v[p.d])
  }

  function Put(v: seq<nat>, p: Place, q: Quad): (u: seq<nat>)
    requires |v| == 16 && Proper(p)
    ensures |u| == 16
  {
    v[p.a := q.a][p.b := q.b][p.c := q.c][p.d := q.d]
  }

  // The columns and then the diagonals.
  function PlaceOf(i: nat): (p: Place)
    requires i < 8
    ensures Proper(p)
  {
    if i == 0 then Place(0, 4, 8, 12)
    else if i == 1 then Place(1, 5, 9, 13)
    else if i == 2 then Place(2, 6, 10, 14)
    else if i == 3 then Place(3, 7, 11, 15)
    else if i == 4 then Place(0, 5, 10, 15)
    else if i == 5 then Place(1, 6, 11, 12)
    else if i == 6 then Place(2, 7, 8, 13)
    else Place(3, 4, 9, 14)
  }

  // Mixing number i of round r.
  function Step(v: seq<nat>, m: seq<nat>, r: nat, i: nat): (u: seq<nat>)
    requires |v| == 16 && |m| == 16 && i < 8
    ensures |u| == 16
  {
    Put(v, PlaceOf(i), Mix(At(v, PlaceOf(i)), m[Sigma(r)[2 * i]], m[Sigma(r)[2 * i + 1]]))
  }

  // The first i mixings of round r.
  function Round(v: seq<nat>, m: seq<nat>, r: nat, i: nat): (u: seq<nat>)
    requires |v| == 16 && |m| == 16 && i <= 8
    ensures |u| == 16
  {
    if i == 0 then v else Step(Round(v, m, r, i - 1), m, r, i - 1)
  }

  function Rounds(v: seq<nat>, m: seq<nat>, n: nat): (u: seq<nat>)
    requires |v| == 16 && |m| == 16
    ensures |u| == 16
  {
    if n == 0 then v else Round(Rounds(v, m, n - 1), m, n - 1, 8)
  }

  // Section 3.2: the local work vector before the rounds.
  function Start(h: seq<nat>, t0: nat, t1: nat, final: bool): (v: seq<nat>)
    requires |h| == 8
    ensures |v| == 16
  {
    var v := h + IV;
    var v := v[12 := Xor(v[12], t0)];
    var v := v[13 := Xor(v[13], t1)];
    if final then v[14 := Xor(v[14], Pow2(WORDBITS) - 1)] else v
  }

  // Section 3.2: the compression function.
  function F(rounds: nat, h: seq<nat>, m: seq<nat>, t0: nat, t1: nat, final: bool): (r: seq<nat>)
    requires |h| == 8 && |m| == 16
    ensures |r| == 8
  {
    var v := Rounds(Start(h, t0, t1, final), m, rounds);
    seq(8, i requires 0 <= i < 8 => Xor(Xor(h[i], v[i]), v[i + 8]))
  }

  //
  // The masked integers of the code
  //

  function MaskBits(): nat {
    Pow2(WORDBITS) - 1
  }

  lemma MaskedSum(x: nat)
    ensures And(x, MaskBits()) == x % Pow2(WORDBITS)
  {
    AndOnes(x, WORDBITS);
  }

  lemma DivideBy(w: nat, m: nat, n: nat)
    requires m > 0 && n > 0 && w < m * n
    ensures w / m < n
  {
    assert w == (w / m) * m + w % m;
    if w / m >= n {
      ScaleUp(n, w / m, m);
    }
  }

  lemma ScaleUp(a: int, b: int, m: nat)
    requires a <= b
    ensures a * m <= b * m
  {
    assert b * m == a * m + (b - a) * m;
  }

  // Swapping quotient and remainder: a rotation, with m = 2^n and k = 2^(64 - n).
  lemma Swapped(w: nat, m: nat, k: nat)
    requires m > 0 && k > 0 && w < m * k
    ensures 0 <= w / m < k && w == (w / m) * m + w % m
    ensures w / m + (w % m) * k < m * k
    ensures (w / m + (w % m) * k) / k == w % m && (w / m + (w % m) * k) % k == w / m
  {
    var q, r := w / m, w % m;
    assert w == q * m + r;
    DivideBy(w, m, k);
    ScaleUp(r, m - 1, k);
    assert (m - 1) * k == m * k - k;
    Divide(q + r * k, k, r, q);
  }

  lemma RotrFits(w: nat, n: nat)
    requires IsWord(w) && n <= WORDBITS
    ensures IsWord(Rotr(w, n))
    ensures 0 <= w / Pow2(n) < Pow2(WORDBITS - n)
  {
    hide Pow2;
    PowAdd(n, WORDBITS - n);
    Swapped(w, Pow2(n), Pow2(WORDBITS - n));
  }

  lemma ShiftedRemainder(w: nat, m: nat, k: nat)
    requires m > 0 && k > 0
    ensures (w * k) % (m * k) == (w % m) * k
  {
    var q, r := w / m, w % m;
    assert w == q * m + r;
    assert w * k == q * (m * k) + r * k;
    ScaleUp(r, m - 1, k);
    assert (m - 1) * k == m * k - k;
    Divide(w * k, m * k, q, r * k);
  }

  // The code's two shifts, joined, rotate.
  lemma ShiftsRotate(w: nat, n: nat)
    requires IsWord(w) && n <= WORDBITS
    ensures Or(ShiftRight(w, n), And(ShiftLeft(w, WORDBITS - n), MaskBits())) == Rotr(w, n)
  {
    hide Pow2, Or, And;
    var m, k := Pow2(n), Pow2(WORDBITS - n);
    PowAdd(n, WORDBITS - n);
    RotrFits(w, n);
    MaskedSum(w * k);
    ShiftedRemainder(w, m, k);
    var q: nat := w / m;
    OrDisjoint(q, w % m, WORDBITS - n);
  }

  lemma MixFits(q: Quad, x: nat, y: nat)
    requires IsWord(q.a) && IsWord(q.b) && IsWord(q.c) && IsWord(q.d)
    ensures var r := Mix(q, x, y); IsWord(r.a) && IsWord(r.b) && IsWord(r.c) && IsWord(r.d)
  {
    hide Sum, Rotr, Xor;
    var a1 := Sum(q.a, q.b + x);
    XorRotrFits(q.d, a1, 32);
    var d1 := Rotr(Xor(q.d, a1), 32);
    var c1 := Sum(q.c, d1);
    XorRotrFits(q.b, c1, 24);
    var b1 := Rotr(Xor(q.b, c1), 24);
    var a2 := Sum(a1, b1 + y);
    XorRotrFits(d1, a2, 16);
    var d2 := Rotr(Xor(d1, a2), 16);
    XorRotrFits(b1, Sum(c1, d2), 63);
  }

  lemma XorRotrFits(x: nat, y: nat, n: nat)
    requires IsWord(x) && IsWord(y) && n <= WORDBITS
    ensures IsWord(Xor(x, y)) && IsWord(Rotr(Xor(x, y), n))
  {
    XorFits(x, y, WORDBITS);
    RotrFits(Xor(x, y), n);
  }

  //
  // Mixing can be undone
  //

  function Difference(w: nat, x: nat): (d: nat)
    ensures IsWord(d)
  {
    (w - x) % Pow2(WORDBITS)
  }

  function Unmix(q: Quad, x: nat, y: nat): Quad {
    var b1 := Xor(Rotr(q.b, 1), q.c);
    var c1 := Difference(q.c, q.d);
    var d1 := Xor(Rotr(q.d, 48), q.a);
    var a1 := Difference(q.a, b1 + y);
    var b := Xor(Rotr(b1, 40), c1);
    var c := Difference(c1, d1);
    var d := Xor(Rotr(d1, 32), a1);
    Quad(Difference(a1, b + x), b, c, d)
  }

  lemma DifferenceOfSum(w: nat, x: nat)
    requires IsWord(w)
    ensures Difference(Sum(w, x), x) == w
  {
    hide Pow2;
    ModShift(w, x, Pow2(WORDBITS));
  }

  lemma SumOfDifference(w: nat, x: nat)
    requires IsWord(w)
    ensures Sum(Difference(w, x), x) == w
  {
    hide Pow2;
    var y: int := x;
    ModShift(w, -y, Pow2(WORDBITS));
  }

  lemma ModShift(w: nat, x: int, m: nat)
    requires w < m
    ensures ((w + x) % m - x) % m == w
  {
    var q := (w + x) / m;
    assert w + x == q * m + (w + x) % m;
    assert (w + x) % m - x == w + (-q) * m;
    ModUnique(w + (-q) * m, m, -q, w);
  }

  lemma ModUnique(z: int, m: nat, q: int, r: nat)
    requires m > 0 && z == q * m + r && r < m
    ensures z % m == r
  {
    var d := z / m - q;
    assert z == (z / m) * m + z % m;
    assert d * m == r - z % m;
    WholeMultiples(d, m);
  }

  lemma RotateBack(w: nat, n: nat)
    requires IsWord(w) && n <= WORDBITS
    ensures Rotr(Rotr(w, n), WORDBITS - n) == w
  {
    hide Pow2;
    PowAdd(n, WORDBITS - n);
    Swapped(w, Pow2(n), Pow2(WORDBITS - n));
    assert WORDBITS - (WORDBITS - n) == n;
  }

  lemma XorRotateBack(x: nat, y: nat, n: nat)
    requires IsWord(x) && IsWord(y) && n <= WORDBITS
    ensures Xor(Rotr(Rotr(Xor(x, y), n), WORDBITS - n), y) == x
  {
    XorFits(x, y, WORDBITS);
    RotateBack(Xor(x, y), n);
    XorUndoes(x, y);
  }

  lemma RotateXorBack(w: nat, y: nat, n: nat)
    requires IsWord(w) && IsWord(y) && n <= WORDBITS
    ensures Rotr(Xor(Xor(Rotr(w, WORDBITS - n), y), y), n) == w
  {
    RotrFits(w, WORDBITS - n);
    XorUndoes(Rotr(w, WORDBITS - n), y);
    RotateBack(w, WORDBITS - n);
  }

  ghost predicate QuadOfWords(q: Quad) {
    IsWord(q.a) && IsWord(q.b) && IsWord(q.c) && IsWord(q.d)
  }

  lemma UnmixMixes(q: Quad, x: nat, y: nat)
    requires QuadOfWords(q)
    ensures Unmix(Mix(q, x, y), x, y) == q
  {
    hide Sum, Rotr, Xor, Difference, IsWord;
    var a1 := Sum(q.a, q.b + x);
    var d1 := Rotr(Xor(q.d, a1), 32);
    XorRotrFits(q.d, a1, 32);
    var c1 := Sum(q.c, d1);
    var b1 := Rotr(Xor(q.b, c1), 24);
    XorRotrFits(q.b, c1, 24);
    var a2 := Sum(a1, b1 + y);
    var d2 := Rotr(Xor(d1, a2), 16);
    var c2 := Sum(c1, d2);
    XorRotateBack(b1, c2, 63);
    DifferenceOfSum(c1, d2);
    XorRotateBack(d1, a2, 16);
    DifferenceOfSum(a1, b1 + y);
    XorRotateBack(q.b, c1, 24);
    DifferenceOfSum(q.c, d1);
    XorRotateBack(q.d, a1, 32);
    DifferenceOfSum(q.a, q.b + x);
  }

  lemma MixUnmixes(q: Quad, x: nat, y: nat)
    requires QuadOfWords(q)
    ensures Mix(Unmix(q, x, y), x, y) == q && QuadOfWords(Unmix(q, x, y))
  {
    hide Sum, Rotr, Xor, Difference, IsWord;
    var b1 := Xor(Rotr(q.b, 1), q.c);
    RotrXorFits(q.b, q.c, 1);
    var c1 := Difference(q.c, q.d);
    var d1 := Xor(Rotr(q.d, 48), q.a);
    RotrXorFits(q.d, q.a, 48);
    var a1 := Difference(q.a, b1 + y);
    var b := Xor(Rotr(b1, 40), c1);
    RotrXorFits(b1, c1, 40);
    var c := Difference(c1, d1);
    var d := Xor(Rotr(d1, 32), a1);
    RotrXorFits(d1, a1, 32);
    SumOfDifference(a1, b + x);
    RotateXorBack(d1, a1, 32);
    SumOfDifference(c1, d1);
    RotateXorBack(b1, c1, 24);
    SumOfDifference(q.a, b1 + y);
    RotateXorBack(q.d, q.a, 16);
    SumOfDifference(q.c, q.d);
    RotateXorBack(q.b, q.c, 63);
  }

  lemma RotrXorFits(w: nat, y: nat, n: nat)
    requires IsWord(w) && IsWord(y) && n <= WORDBITS
    ensures IsWord(Xor(Rotr(w, n), y))
  {
    RotrFits(w, n);
    XorFits(Rotr(w, n), y, WORDBITS);
  }

  function StepBack(v: seq<nat>, m: seq<nat>, r: nat, i: nat): (u: seq<nat>)
    requires |v| == 16 && |m| == 16 && i < 8
    ensures |u| == 16
  {
    Put(v, PlaceOf(i), Unmix(At(v, PlaceOf(i)), m[Sigma(r)[2 * i]], m[Sigma(r)[2 * i + 1]]))
  }

  function RoundBack(v: seq<nat>, m: seq<nat>, r: nat, i: nat): (u: seq<nat>)
    requires |v| == 16 && |m| == 16 && i <= 8
    ensures |u| == 16
    decreases i
  {
    if i == 0 then v else RoundBack(StepBack(v, m, r, i - 1), m, r, i - 1)
  }

  function RoundsBack(v: seq<nat>, m: seq<nat>, n: nat): (u: seq<nat>)
    requires |v| == 16 && |m| == 16
    ensures |u| == 16
    decreases n
  {
    if n == 0 then v else RoundsBack(RoundBack(v, m, n - 1, 8), m, n - 1)
  }

  lemma PutAt(v: seq<nat>, p: Place, q: Quad)
    requires |v| == 16 && Proper(p)
    ensures At(Put(v, p, q), p) == q
    ensures Put(Put(v, p, q), p, At(v, p)) == v
    ensures Words(v, 16) && QuadOfWords(q) ==> Words(Put(v, p, q), 16)
    ensures Words(v, 16) ==> QuadOfWords(At(v, p))
  {}

  lemma StepUndone(v: seq<nat>, m: seq<nat>, r: nat, i: nat)
    requires Words(v, 16) && |m| == 16 && i < 8
    ensures Words(Step(v, m, r, i), 16) && StepBack(Step(v, m, r, i), m, r, i) == v
    ensures Words(StepBack(v, m, r, i), 16) && Step(StepBack(v, m, r, i), m, r, i) == v
  {
    assert |v| == 16;
    hide Mix, Unmix, Put, At, Words, QuadOfWords, PlaceOf, Sigma;
    var p, x, y := PlaceOf(i), m[Sigma(r)[2 * i]], m[Sigma(r)[2 * i + 1]];
    var q := At(v, p);
    QuadFacts(q, x, y);
    PutAt(v, p, q);
    PutAt(v, p, Mix(q, x, y));
    PutAt(v, p, Unmix(q, x, y));
    UnmixMixes(q, x, y);
    MixUnmixes(q, x, y);
    PutTwice(v, p, Mix(q, x, y), q);
    PutTwice(v, p, Unmix(q, x, y), q);
    PutSame(v, p);
  }

  lemma QuadFacts(q: Quad, x: nat, y: nat)
    ensures QuadOfWords(q) ==> QuadOfWords(Mix(q, x, y))
  {
    if QuadOfWords(q) {
      MixFits(q, x, y);
    }
  }

  lemma PutTwice(v: seq<nat>, p: Place, q: Quad, r: Quad)
    requires |v| == 16 && Proper(p)
    ensures Put(Put(v, p, q), p, r) == Put(v, p, r)
  {}

  lemma PutSame(v: seq<nat>, p: Place)
    requires |v| == 16 && Proper(p)
    ensures Put(v, p, At(v, p)) == v
  {}

  lemma {:induction false} RoundUndone(v: seq<nat>, m: seq<nat>, r: nat, i: nat)
    requires Words(v, 16) && |m| == 16 && i <= 8
    ensures Words(Round(v, m, r, i), 16) && RoundBack(Round(v, m, r, i), m, r, i) == v
    ensures Words(RoundBack(v, m, r, i), 16) && Round(RoundBack(v, m, r, i), m, r, i) == v
    decreases i
  {
    hide Step, StepBack, Words;
    if i > 0 {
      RoundUndone(v, m, r, i - 1);
      StepUndone(Round(v, m, r, i - 1), m, r, i - 1);
      StepUndone(v, m, r, i - 1);
      RoundUndone(StepBack(v, m, r, i - 1), m, r, i - 1);
    }
  }

  // For a fixed message block the mixing loop is a bijection on states of
  // sixteen words: RoundsBack is its inverse on both sides.
  lemma {:induction false} RoundsUndone(v: seq<nat>, m: seq<nat>, n: nat)
    requires Words(v, 16) && |m| == 16
    ensures Words(Rounds(v, m, n), 16) && RoundsBack(Rounds(v, m, n), m, n) == v
    ensures Words(RoundsBack(v, m, n), 16) && Rounds(RoundsBack(v, m, n), m, n) == v
    decreases n
  {
    hide Round, RoundBack, Words;
    if n > 0 {
      RoundsUndone(v, m, n - 1);
      RoundUndone(Rounds(v, m, n - 1), m, n - 1, 8);
      RoundUndone(v, m, n - 1, 8);
      RoundsUndone(RoundBack(v, m, n - 1, 8), m, n - 1);
    }
  }

  lemma RoundsInjective(u: seq<nat>, v: seq<nat>, m: seq<nat>, n: nat)
    requires Words(u, 16) && Words(v, 16) && |m| == 16 && Rounds(u, m, n) == Rounds(v, m, n)
    ensures u == v
  {
    RoundsUndone(u, m, n);
    RoundsUndone(v, m, n);
  }

  //
  // Bytes
  //

  type Byte = x: int | 0 <= x < 0x100

  // Numbers of n bytes, the lowest first.
  function Pack(w: nat, n: nat): (b: seq<Byte>)
    ensures |b| == n
  {
    if n == 0 then [] else [w % 0x100] + Pack(w / 0x100, n - 1)
  }

  function Unpack(b: seq<Byte>): nat {
    if b == [] then 0 else (b[0] as int) + 0x100 * Unpack(b[1..])
  }

  lemma {:induction false} UnpackPacked(w: nat, n: nat)
    requires w < Pow2(8 * n)
    ensures Unpack(Pack(w, n)) == w
  {
    if n > 0 {
      EightMore(8 * (n - 1));
      assert 8 * n == 8 * (n - 1) + 8;
      UnpackPacked(w / 0x100, n - 1);
    }
  }

  lemma {:induction false} UnpackFits(b: seq<Byte>)
    ensures Unpack(b) < Pow2(8 * |b|) && Pack(Unpack(b), |b|) == b
  {
    if b != [] {
      UnpackFits(b[1..]);
      EightMore(8 * (|b| - 1));
      assert 8 * |b| == 8 * (|b| - 1) + 8;
      assert Unpack(b) % 0x100 == b[0] && Unpack(b) / 0x100 == Unpack(b[1..]);
      assert b == [b[0]] + b[1..];
    }
  }

  lemma EightMore(k: nat)
    ensures Pow2(k + 8) == 0x100 * Pow2(k)
  {
    PowAdd(k, 8);
    assert Pow2(8) == 0x100;
  }

  // struct.unpack_from of n words, and struct.pack of words that fit.
  function UnpackWords(b: seq<Byte>, n: nat): (m: seq<nat>)
    requires |b| >= 8 * n
    ensures |m| == n
  {
    if n == 0 then [] else [Unpack(b[..8])] + UnpackWords(b[8..], n - 1)
  }

  ghost function PackWords(words: seq<nat>): (b: seq<Byte>)
    requires forall i :: 0 <= i < |words| ==> IsWord(words[i])
    ensures |b| == 8 * |words|
  {
    if words == [] then [] else Pack(words[0], 8) + PackWords(words[1..])
  }

  // Packing loses nothing: every word is read back.
  lemma {:induction false} WordsReadBack(words: seq<nat>)
    requires forall i :: 0 <= i < |words| ==> IsWord(words[i])
    ensures UnpackWords(PackWords(words), |words|) == words
  {
    if words != [] {
      var b := PackWords(words);
      assert b[..8] == Pack(words[0], 8) && b[8..] == PackWords(words[1..]);
      UnpackPacked(words[0], 8);
      WordsReadBack(words[1..]);
    }
  }

  //
  // The code
  //

  lemma StartFits(h: seq<nat>, t0: nat, t1: nat, final: bool)
    requires Words(h, 8) && IsWord(t0) && IsWord(t1)
    ensures Words(Start(h, t0, t1, final), 16)
  {
    hide Xor, Pow2;
    Pow2Of64();
    assert forall i :: 0 <= i < 8 ==> IsWord(IV[i]);
    XorFits(IV[4], t0, WORDBITS);
    XorFits(IV[5], t1, WORDBITS);
    XorFits(IV[6], Pow2(WORDBITS) - 1, WORDBITS);
  }

  // Every word of the result fits, so packing never overflows.
  lemma ResultFits(rounds: nat, h: seq<nat>, m: seq<nat>, t0: nat, t1: nat, final: bool)
    requires Words(h, 8) && |m| == 16 && IsWord(t0) && IsWord(t1)
    ensures Words(F(rounds, h, m, t0, t1, final), 8)
  {
    hide Xor, Rounds, Start;
    var v := Rounds(Start(h, t0, t1, final), m, rounds);
    StartFits(h, t0, t1, final);
    RoundsUndone(Start(h, t0, t1, final), m, rounds);
    forall i | 0 <= i < 8 ensures IsWord(Xor(Xor(h[i], v[i]), v[i + 8])) {
      XorFits(h[i], v[i], WORDBITS);
      XorFits(Xor(h[i], v[i]), v[i + 8], WORDBITS);
    }
  }

  // One shift pair of G on a word.
  method Rotate(w: nat, n: nat) returns (r: nat)
    requires IsWord(w) && n <= WORDBITS
    ensures r == Rotr(w, n) && IsWord(r)
  {
    r := Or(ShiftRight(w, n), And(ShiftLeft(w, WORDBITS - n), MaskBits()));
    ShiftsRotate(w, n);
    RotrFits(w, n);
  }

  method AddMasked(x: nat, y: nat) returns (r: nat)
    ensures r == Sum(x, y)
  {
    r := And(x + y, MaskBits());
    MaskedSum(x + y);
  }

  // The inner G, in place.
  method G(v: array<nat>, p: Place, msri2: nat, msri21: nat)
    requires v.Length == 16 && Words(v[..], 16) && Proper(p)
    modifies v
    ensures v[..] == Put(old(v[..]), p, Mix(At(old(v[..]), p), msri2, msri21)) && Words(v[..], 16)
  {
    hide Sum, Rotr, Xor, IsWord;
    ghost var q := At(v[..], p);
    assert QuadOfWords(q);
    var va, vb, vc, vd := v[p.a], v[p.b], v[p.c], v[p.d];
    va := AddMasked(va, vb + msri2);
    XorRotrFits(vd, va, 32);
    vd := Rotate(Xor(vd, va), 32);
    vc := AddMasked(vc, vd);
    XorRotrFits(vb, vc, 24);
    vb := Rotate(Xor(vb, vc), 24);
    va := AddMasked(va, vb + msri21);
    XorRotrFits(vd, va, 16);
    vd := Rotate(Xor(vd, va), 16);
    vc := AddMasked(vc, vd);
    XorRotrFits(vb, vc, 63);
    vb := Rotate(Xor(vb, vc), 63);
    assert Mix(q, msri2, msri21) == Quad(va, vb, vc, vd);
    v[p.a] := va;
    v[p.b] := vb;
    v[p.c] := vc;
    v[p.d] := vd;
    PutAt(old(v[..]), p, Quad(va, vb, vc, vd));
  }

  lemma ResultWords(r: seq<nat>)
    requires Words(r, 8)
    ensures forall i :: 0 <= i < |r| ==> IsWord(r[i])
  {}

  method StartVector(h: seq<nat>, t0: nat, t1: nat, final: bool) returns (v: array<nat>)
    requires |h| == 8
    ensures fresh(v) && v.Length == 16 && v[..] == Start(h, t0, t1, final)
  {
    hide Xor, Pow2;
    v := new nat[16](i => 0);
    for i := 0 to 8
      invariant forall j :: 0 <= j < i ==> v[j] == h[j]
    {
      v[i] := h[i];
    }
    for i := 8 to 12
      invariant forall j :: 0 <= j < 8 ==> v[j] == h[j]
      invariant forall j :: 8 <= j < i ==> v[j] == IV[j - 8]
    {
      v[i] := IV[i - 8];
    }
    v[12] := Xor(t0, IV[4]);
    v[13] := Xor(t1, IV[5]);
    v[14] := if final then Xor(MaskBits(), IV[6]) else IV[6];
    v[15] := IV[7];
    XorCommutes(t0, IV[4]);
    XorCommutes(t1, IV[5]);
    XorCommutes(MaskBits(), IV[6]);
    ghost var s := Start(h, t0, t1, final);
    assert forall j :: 0 <= j < 8 ==> s[j] == h[j];
    assert forall j :: 8 <= j < 12 ==> s[j] == IV[j - 8];
  }

  method RunRounds(v: array<nat>, m: seq<nat>, numRounds: nat)
    requires v.Length == 16 && Words(v[..], 16) && |m| == 16
    modifies v
    ensures v[..] == Rounds(old(v[..]), m, numRounds)
  {
    hide Words, Step, Sigma;
    for r := 0 to numRounds
      invariant Words(v[..], 16) && v[..] == Rounds(old(v[..]), m, r)
    {
      for i := 0 to 8
        invariant Words(v[..], 16) && v[..] == Round(Rounds(old(v[..]), m, r), m, r, i)
      {
        MixStep(v, m, r, i);
      }
    }
  }

  method MixStep(v: array<nat>, m: seq<nat>, r: nat, i: nat)
    requires v.Length == 16 && Words(v[..], 16) && |m| == 16 && i < 8
    modifies v
    ensures v[..] == Step(old(v[..]), m, r, i) && Words(v[..], 16)
  {
    var sr := Sigma(r);
    G(v, PlaceOf(i), m[sr[2 * i]], m[sr[2 * i + 1]]);
  }

  method PackResult(h: seq<nat>, v: array<nat>, ghost r: seq<nat>) returns (out: seq<Byte>)
    requires |h| == 8 && v.Length == 16 && Words(r, 8)
    requires forall i :: 0 <= i < 8 ==> r[i] == Xor(Xor(h[i], v[i]), v[i + 8])
    ensures out == PackWords(r) && |out| == 64
  {
    ResultWords(r);
    hide Xor, Pack, Words, IsWord, Pow2;
    out := [];
    assert r[0..] == r && [] + PackWords(r) == PackWords(r);
    for i := 0 to 8
      invariant |out| == 8 * i && PackWords(r) == out + PackWords(r[i..])
    {
      assert r[i..][0] == r[i] && r[i..][1..] == r[i + 1..];
      var word := Pack(Xor(Xor(h[i], v[i]), v[i + 8]), 8);
      assert out + (word + PackWords(r[i + 1..])) == (out + word) + PackWords(r[i + 1..]);
      out := out + word;
    }
    assert r[8..] == [];
  }

  // blake2b_compress is F, packed.
  method Compress(numRounds: nat, h: seq<nat>, block: seq<Byte>, t0: nat, t1: nat, final: bool) returns (out: seq<Byte>)
    requires Words(h, 8) && |block| >= 128 && IsWord(t0) && IsWord(t1)
    ensures var r := F(numRounds, h, UnpackWords(block, 16), t0, t1, final);
            Words(r, 8) && out == PackWords(r) && |out| == 64
  {
    assert |h| == 8;
    hide Xor, Pow2, Rounds, Words, IsWord, UnpackWords, PackWords, Start;
    var m := UnpackWords(block, 16);
    var v := StartVector(h, t0, t1, final);
    StartFits(h, t0, t1, final);
    RunRounds(v, m, numRounds);
    ResultFits(numRounds, h, m, t0, t1, final);
    ghost var r := F(numRounds, h, m, t0, t1, final);
    out := PackResult(h, v, r);
    ResultWords(r);
  }
}

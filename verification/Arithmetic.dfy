/** Powers of two, products and remainders, one small step at a time. */
module Arithmetic {

  function Pow2(n: nat): (p: nat)
    ensures p >= 1
  {
    if n == 0 then 1 else 2 * Pow2(n - 1)
  }

  lemma {:induction false} Pow2Adds(a: nat, b: nat)
    ensures Pow2(a + b) == Pow2(a) * Pow2(b)
  {
    if a != 0 {
      Pow2Adds(a - 1, b);
      Reassociate(2, Pow2(a - 1), Pow2(b));
    }
  }

  lemma Powers()
    ensures Pow2(0) == 1 && Pow2(5) == 32 && Pow2(8) == 256 && Pow2(16) == 0x1_0000 && Pow2(31) == 0x8000_0000 && Pow2(32) == 0x1_0000_0000
  {
    assert Pow2(4) == 16;
    assert Pow2(8) == 256;
    Pow2Adds(8, 8);
    Pow2Adds(16, 16);
    assert Pow2(32) == 2 * Pow2(31);
  }

  lemma Reassociate(a: int, b: int, c: int)
    ensures a * (b * c) == a * b * c
  {
  }

  lemma Distribute(a: int, b: int, c: int)
    ensures (a + b) * c == a * c + b * c
    ensures (a - b) * c == a * c - b * c
  {
  }

  lemma Monotone(a: int, b: int, c: nat)
    requires a <= b
    ensures a * c <= b * c
  {
  }

  lemma Division(x: int, m: int)
    requires m > 0
    ensures x == x / m * m + x % m && 0 <= x % m < m
  {
  }

  lemma MultipleIsZero(d: int, m: int)
    requires -m < d * m < m
    ensures d == 0
  {
    if d >= 1 {
      Monotone(1, d, m);
    } else if d <= -1 {
      Monotone(d, -1, m);
    }
  }

  lemma DivModAre(x: int, m: int, k: int, r: int)
    requires m > 0 && x == k * m + r && 0 <= r < m
    ensures x / m == k && x % m == r
  {
    Division(x, m);
    Distribute(k, x / m, m);
    MultipleIsZero(k - x / m, m);
  }

  lemma DigitsFit(r: nat, p: nat, c: nat, low: nat)
    requires r < p && low < c
    ensures r * c + low < p * c
  {
    Monotone(r, p - 1, c);
    Distribute(p, 1, c);
  }

  /** Modulo p*c, a product by c that was itself reduced modulo a multiple of p*c. */
  lemma ScaledRemainder(v: nat, c: nat, p: nat, top: nat, word: nat, low: nat)
    requires p > 0 && word > 0 && word == top * (p * c) && low < c
    ensures p * c > 0 && (v * c % word + low) % (p * c) == v % p * c + low
  {
    DigitsFit(v % p, p, c, low);
    var q, r, s := v / p, v % p, v * c / word;
    Division(v, p);
    Division(v * c, word);
    Distribute(q * p, r, c);
    Reassociate(q, p, c);
    Reassociate(s, top, p * c);
    Distribute(q, s * top, p * c);
    DivModAre(v * c % word + low, p * c, q - s * top, r * c + low);
  }

  lemma SplitRemainder(v: nat, h: nat, m: nat)
    requires h > 0 && m > 0
    ensures h * m > 0 && v % (h * m) == v / m % h * m + v % m
  {
    var a := v / m;
    DigitsFit(a % h, h, m, v % m);
    Division(v, m);
    Division(a, h);
    Distribute(a / h * h, a % h, m);
    Reassociate(a / h, h, m);
    DivModAre(v, h * m, a / h, a % h * m + v % m);
  }

  lemma QuotientOfQuotient(v: nat, h: nat, m: nat)
    requires h > 0 && m > 0
    ensures h * m > 0 && v / (h * m) == v / m / h
  {
    var a := v / m;
    DigitsFit(a % h, h, m, v % m);
    Division(v, m);
    Division(a, h);
    Distribute(a / h * h, a % h, m);
    Reassociate(a / h, h, m);
    DivModAre(v, h * m, a / h, a % h * m + v % m);
  }
}

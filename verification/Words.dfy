/** Bytes and 32-bit words as numbers, and what the bit operators of the programs do to them. */
module Words {
  import opened Arithmetic

  type Byte = b: int | 0 <= b < 256 witness 0
  type Word = w: int | 0 <= w < 0x1_0000_0000 witness 0

  // ---- exclusive or, bit by bit from the low end ----

  function Xor(x: nat, y: nat): (r: nat)
    ensures x == 0 ==> r == y
    ensures y == 0 ==> r == x
  {
    if x == 0 && y == 0 then 0 else (x + y) % 2 + 2 * Xor(x / 2, y / 2)
  }

  lemma DigitAndRest(d: nat, rest: nat)
    requires d < 2
    ensures (d + 2 * rest) % 2 == d && (d + 2 * rest) / 2 == rest
  {
  }

  lemma XorHalves(x: nat, y: nat)
    ensures Xor(x, y) % 2 == (x + y) % 2 && Xor(x, y) / 2 == Xor(x / 2, y / 2)
  {
    DigitAndRest((x + y) % 2, Xor(x / 2, y / 2));
  }

  lemma SameNumber(a: nat, b: nat)
    requires a % 2 == b % 2 && a / 2 == b / 2
    ensures a == b
  {
  }

  lemma Parity(x: nat, y: nat, z: nat, xy: nat, yz: nat)
    requires xy % 2 == (x + y) % 2 && yz % 2 == (y + z) % 2
    ensures (xy + z) % 2 == (x + yz) % 2
  {
  }

  lemma {:induction false} XorIsAssociative(x: nat, y: nat, z: nat)
    ensures Xor(Xor(x, y), z) == Xor(x, Xor(y, z))
    decreases x + y + z
  {
    if x + y + z != 0 {
      XorHalves(x, y);
      XorHalves(y, z);
      XorHalves(Xor(x, y), z);
      XorHalves(x, Xor(y, z));
      XorIsAssociative(x / 2, y / 2, z / 2);
      Parity(x, y, z, Xor(x, y), Xor(y, z));
      SameNumber(Xor(Xor(x, y), z), Xor(x, Xor(y, z)));
    }
  }

  lemma {:induction false} XorCommutes(x: nat, y: nat)
    ensures Xor(x, y) == Xor(y, x)
    decreases x + y
  {
    if x + y != 0 {
      XorCommutes(x / 2, y / 2);
    }
  }

  lemma {:induction false} XorSelf(x: nat)
    ensures Xor(x, x) == 0
  {
    if x != 0 {
      XorSelf(x / 2);
    }
  }

  lemma {:induction false} XorBelow(x: nat, y: nat, n: nat)
    requires x < Pow2(n) && y < Pow2(n)
    ensures Xor(x, y) < Pow2(n)
  {
    if n != 0 {
      XorBelow(x / 2, y / 2, n - 1);
      XorHalves(x, y);
    }
  }

  /** The operator ^ on two words. */
  function Xor32(x: Word, y: Word): Word {
    Powers();
    XorBelow(x, y, 32);
    Xor(x, y)
  }

  lemma XorCancels(x: nat, y: nat, z: nat)
    ensures Xor(x, z) == Xor(y, z) ==> x == y
    ensures Xor(z, x) == Xor(z, y) ==> x == y
  {
    XorCommutes(x, z);
    XorCommutes(y, z);
    XorIsAssociative(x, z, z);
    XorIsAssociative(y, z, z);
    XorSelf(z);
  }

  /** Where one operand has only zeros, exclusive or is addition. */
  lemma {:induction false} XorOfDisjoint(low: nat, high: nat, n: nat)
    requires low < Pow2(n)
    ensures Xor(low, high * Pow2(n)) == low + high * Pow2(n)
  {
    if n != 0 {
      var h := high * Pow2(n - 1);
      Reassociate(high, 2, Pow2(n - 1));
      Reassociate(2, high, Pow2(n - 1));
      assert high * Pow2(n) == 2 * h;
      XorOfDisjoint(low / 2, high, n - 1);
      XorOfEven(low, h);
    }
  }

  lemma XorOfEven(low: nat, h: nat)
    requires Xor(low / 2, h) == low / 2 + h
    ensures Xor(low, 2 * h) == low + 2 * h
  {
    XorHalves(low, 2 * h);
    DigitAndRest(low % 2, low / 2 + h);
    EvenAdded(low, h);
    SameNumber(Xor(low, 2 * h), low % 2 + 2 * (low / 2 + h));
  }

  lemma EvenAdded(low: nat, h: nat)
    ensures 2 * h / 2 == h && (low + 2 * h) % 2 == low % 2 && low + 2 * h == low % 2 + 2 * (low / 2 + h)
  {
  }

  /** x >>> n. */
  function ShiftRight(x: nat, n: nat): (r: nat)
    ensures r <= x
  {
    if n == 0 then x else ShiftRight(x / 2, n - 1)
  }

  lemma {:induction false} XorOfShifted(x: nat, y: nat, n: nat)
    ensures ShiftRight(Xor(x, y), n) == Xor(ShiftRight(x, n), ShiftRight(y, n))
  {
    if n != 0 {
      XorHalves(x, y);
      XorOfShifted(x / 2, y / 2, n - 1);
    }
  }

  lemma {:induction false} ShiftRightIsQuotient(x: nat, n: nat)
    ensures ShiftRight(x, n) == x / Pow2(n)
  {
    if n != 0 {
      ShiftRightIsQuotient(x / 2, n - 1);
      QuotientOfQuotient(x, Pow2(n - 1), 2);
    }
  }

  lemma {:induction false} ShiftedOut(x: nat, n: nat)
    requires x < Pow2(n)
    ensures ShiftRight(x, n) == 0
  {
    if n != 0 {
      ShiftedOut(x / 2, n - 1);
    }
  }
}

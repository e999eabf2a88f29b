/**
 The checksum of the ZIP writer: a table of 256 entries, one lookup per byte. The reference
 (section 4.4.7 of the PKWARE APPNOTE) shifts the register bit by bit through the reflected
 polynomial 0xedb88320.
 */
module Crc32 {
  import opened Arithmetic
  import opened Words
  import opened ShiftRegister

  const POLYNOMIAL: Word := 0xedb88320
  const ONES: Word := 0xffffffff

  // ---- the reference ----

  function BitStep(c: Word): Word {
    if c % 2 == 1 then Xor32(POLYNOMIAL, c / 2) else c / 2
  }

  function ByteSteps(c: Word): Word {
    Iterate(BitStep, c, 8)
  }

  function Low(b: Byte): Word {
    b
  }

  function Up(c: Word): Word {
    c * 256 % 0x1_0000_0000
  }

  function Register32(): Machine<Word, Byte> {
    Machine(ByteSteps, Xor32, Low, Up)
  }

  function Crc(data: seq<Byte>): Word {
    Xor32(Register(Register32(), ONES, data), ONES)
  }

  // ---- the register is linear, and every step can be undone ----

  lemma HalvesOfXor(x: Word, y: Word)
    ensures Xor32(x, y) / 2 == Xor32(x / 2, y / 2)
    ensures Xor32(x, y) % 2 == 1 <==> (x % 2 == 1) != (y % 2 == 1)
  {
    XorHalves(x, y);
    OddSum(x, y);
  }

  lemma OddSum(x: nat, y: nat)
    ensures (x + y) % 2 == 1 <==> (x % 2 == 1) != (y % 2 == 1)
  {
  }

  /** Adding the same value on both sides, or on one. */
  lemma AddedTwice(g: Word, p: Word, q: Word)
    ensures Xor32(Xor32(g, p), Xor32(g, q)) == Xor32(p, q)
    ensures Xor32(Xor32(g, p), q) == Xor32(g, Xor32(p, q))
    ensures Xor32(p, Xor32(g, q)) == Xor32(g, Xor32(p, q))
  {
    XorIsAssociative(g, p, q);
    XorIsAssociative(p, g, q);
    XorCommutes(g, p);
    XorIsAssociative(Xor(p, g), g, q);
    XorIsAssociative(p, g, g);
    XorSelf(g);
  }

  lemma BitStepIsLinear(x: Word, y: Word)
    ensures BitStep(Xor32(x, y)) == Xor32(BitStep(x), BitStep(y))
  {
    HalvesOfXor(x, y);
    AddedTwice(POLYNOMIAL, x / 2, y / 2);
  }

  /** The top bit of a step tells whether the polynomial was added. */
  lemma TopBit(c: Word)
    ensures ShiftRight(BitStep(c), 31) == c % 2
  {
    Powers();
    ShiftedOut(c / 2, 31);
    XorOfShifted(POLYNOMIAL, c / 2, 31);
    TopOfPolynomial();
  }

  lemma TopOfPolynomial()
    ensures ShiftRight(POLYNOMIAL, 31) == 1
  {
    Powers();
    ShiftRightIsQuotient(POLYNOMIAL, 31);
  }

  lemma BitStepIsInjective(x: Word, y: Word)
    requires BitStep(x) == BitStep(y)
    ensures x == y
  {
    TopBit(x);
    TopBit(y);
    XorCancels(x / 2, y / 2, POLYNOMIAL);
    SameNumber(x, y);
  }

  lemma ByteStepsAreLinear(x: Word, y: Word)
    ensures ByteSteps(Xor32(x, y)) == Xor32(ByteSteps(x), ByteSteps(y))
  {
    forall a, b
      ensures BitStep(Xor32(a, b)) == Xor32(BitStep(a), BitStep(b))
    {
      BitStepIsLinear(a, b);
    }
    IterateIsAdditive(BitStep, Xor32, x, y, 8);
  }

  lemma ByteStepsAreInjective(x: Word, y: Word)
    requires ByteSteps(x) == ByteSteps(y)
    ensures x == y
  {
    forall a, b | BitStep(a) == BitStep(b)
      ensures a == b
    {
      BitStepIsInjective(a, b);
    }
    IterateIsInjective(BitStep, x, y, 8);
  }

  /** Zeros shift out without meeting the polynomial. */
  lemma {:induction false} ShiftOut(c: Word, n: nat, high: nat)
    requires c == high * Pow2(n)
    ensures Iterate(BitStep, c, n) == high
  {
    if n != 0 {
      Reassociate(high, 2, Pow2(n - 1));
      EvenNumber(high * Pow2(n - 1), c);
      ShiftOut(c / 2, n - 1, high);
      IterateOnce(BitStep, c, n);
    }
  }

  lemma EvenNumber(h: nat, c: nat)
    requires c == 2 * h
    ensures c % 2 == 0 && c / 2 == h
  {
  }

  // ---- the table ----

  function TableEntry(index: Byte): Word {
    ByteSteps(index)
  }

  predicate IsTable(table: seq<Word>) {
    |table| == 256 && forall i :: 0 <= i < 256 ==> table[i] == TableEntry(i)
  }

  method MakeEntry(index: Byte) returns (crc: Word)
    ensures crc == TableEntry(index)
  {
    crc := index;
    for bit := 0 to 8
      invariant crc == Iterate<Word>(BitStep, index, bit)
    {
      crc := if crc % 2 == 1 then Xor32(POLYNOMIAL, crc / 2) else crc / 2;
    }
  }

  method MakeTable() returns (table: array<Word>)
    ensures fresh(table) && IsTable(table[..])
  {
    hide TableEntry;
    ghost var entries := seq(256, i requires 0 <= i < 256 => TableEntry(i));
    table := new Word[256];
    for index := 0 to 256
      invariant table[..index] == entries[..index]
    {
      table[index] := MakeEntry(index);
    }
  }

  lemma LowAndHigh(x: Word)
    ensures Xor32(x % 256, x / 256 * 256) == x
  {
    Powers();
    XorOfDisjoint(x % 256, x / 256, 8);
  }

  /** What one table lookup stands for: the low byte goes through the table, the rest is shifted. */
  lemma LookupStep(x: Word)
    ensures ByteSteps(x) == Xor32(ByteSteps(x % 256), x / 256)
  {
    Powers();
    LowAndHigh(x);
    ShiftOut(x / 256 * 256, 8, x / 256);
    ByteStepsAreLinear(x % 256, x / 256 * 256);
  }

  lemma SameHighBytes(crc: Word, b: Byte)
    ensures Xor32(crc, b) / 256 == crc / 256
  {
    Powers();
    XorOfShifted(crc, b, 8);
    ShiftRightIsQuotient(Xor(crc, b), 8);
    ShiftRightIsQuotient(crc, 8);
    ShiftedOut(b, 8);
  }

  /** The loop body. */
  function Next(table: seq<Word>, crc: Word, b: Byte): Word
    requires |table| == 256
  {
    Xor32(table[Xor32(crc, b) % 256], crc / 256)
  }

  lemma NextIsFeed(table: seq<Word>, crc: Word, b: Byte)
    requires IsTable(table)
    ensures Next(table, crc, b) == Feed(Register32(), crc, b)
  {
    SameHighBytes(crc, b);
    LookupStep(Xor32(crc, b));
  }

  /** One lookup per byte gives the bit-by-bit checksum. */
  method Checksum(data: seq<Byte>, table: array<Word>) returns (crc: Word)
    requires IsTable(table[..])
    ensures crc == Crc(data)
  {
    crc := ONES;
    for i := 0 to |data|
      invariant crc == Register(Register32(), ONES, data[..i])
    {
      assert data[..i + 1][..i] == data[..i];
      NextIsFeed(table[..], crc, data[i]);
      crc := Xor32(table[Xor32(crc, data[i]) % 256], crc / 256);
    }
    assert data[..|data|] == data;
    crc := Xor32(crc, ONES);
  }

  // ---- what the checksum detects ----

  lemma UpThenDown(x: Word)
    requires x < 0x100_0000
    ensures Up(x) == x * 256 && ByteSteps(Up(x)) == x
  {
    Powers();
    ShiftOut(Up(x), 8, x);
  }

  lemma RegisterStepsAdd()
    ensures StepsAdd(Register32())
  {
    forall x: Word, y: Word
      ensures ByteSteps(Xor32(x, y)) == Xor32(ByteSteps(x), ByteSteps(y))
    {
      ByteStepsAreLinear(x, y);
    }
  }

  lemma RegisterAssociates()
    ensures Associates(Register32())
  {
    forall x: Word, y: Word, z: Word
      ensures Xor32(Xor32(x, y), z) == Xor32(x, Xor32(y, z))
    {
      XorIsAssociative(x, y, z);
    }
  }

  lemma RegisterStepsDown()
    ensures StepsDown(Register32())
  {
    forall b
      ensures ByteSteps(Up(Low(b))) == Low(b)
      ensures ByteSteps(Up(Up(Low(b)))) == Up(Low(b))
      ensures ByteSteps(Up(Up(Up(Low(b))))) == Up(Up(Low(b)))
    {
      UpThenDown(Low(b));
      UpThenDown(Up(Low(b)));
      UpThenDown(Up(Up(Low(b))));
    }
  }

  lemma RegisterIsReversible()
    ensures Reversible(Register32())
  {
    forall x: Word, y: Word | ByteSteps(x) == ByteSteps(y)
      ensures x == y
    {
      ByteStepsAreInjective(x, y);
    }
    forall x: Word, y: Word, z: Word
      ensures Xor32(x, z) == Xor32(y, z) ==> x == y
      ensures Xor32(z, x) == Xor32(z, y) ==> x == y
    {
      XorCancels(x, y, z);
    }
  }

  lemma SideBySide(low: nat, above: nat, n: nat)
    requires low < Pow2(n)
    ensures Xor(low, above * Pow2(n)) == low + above * Pow2(n)
  {
    XorOfDisjoint(low, above, n);
  }

  lemma Ups(b: Byte)
    ensures Up(b) == 0x100 * b && Up(Up(b)) == 0x1_0000 * b && Up(Up(Up(b))) == 0x100_0000 * b
  {
    UpIs(b);
    UpIs(0x100 * b);
    UpIs(0x1_0000 * b);
  }

  lemma UpIs(x: Word)
    requires x < 0x100_0000
    ensures Up(x) == 256 * x
  {
  }

  lemma AtTop(low: nat, b: Byte)
    requires low < 0x100_0000
    ensures Xor(low, 0x100_0000 * b) == low + 0x100_0000 * b
  {
    Powers();
    Pow2Adds(8, 16);
    SideBySide(low, b, 24);
  }

  /** Two bytes at the top, then three, then all four. */
  lemma TopTwo(b2: Byte, b3: Byte)
    ensures Xor32(Up(Up(b2)), Up(Up(Up(b3)))) == 0x1_0000 * (b2 + 256 * b3)
  {
    Ups(b2);
    Ups(b3);
    AtTop(0x1_0000 * b2, b3);
  }

  lemma InMiddle(low: nat, above: nat)
    requires low < 0x1_0000
    ensures Xor(low, 0x1_0000 * above) == low + 0x1_0000 * above
  {
    Powers();
    SideBySide(low, above, 16);
  }

  lemma TopThree(b1: Byte, above: Word)
    requires above < 0x1_0000
    ensures Xor32(Up(b1), 0x1_0000 * above) == 256 * (b1 + 256 * above)
  {
    UpIs(b1);
    InMiddle(256 * b1, above);
  }

  lemma AllFour(b0: Byte, above: Word)
    requires above < 0x100_0000
    ensures Xor32(b0, 256 * above) == b0 + 256 * above
  {
    Powers();
    SideBySide(b0, above, 8);
  }

  /** Four bytes side by side are the little-endian number they form. */
  lemma WordIsNumber(b0: Byte, b1: Byte, b2: Byte, b3: Byte)
    ensures WordOf(Register32(), b0, b1, b2, b3) == b0 + 256 * (b1 + 256 * (b2 + 256 * b3))
  {
    TopTwo(b2, b3);
    TopThree(b1, b2 + 256 * b3);
    AllFour(b0, b1 + 256 * (b2 + 256 * b3));
  }

  lemma RegisterWordsAreBytes()
    ensures WordsAreBytes(Register32())
  {
    var m := Register32();
    forall b0, b1, b2, b3, d0, d1, d2, d3 | WordOf(m, b0, b1, b2, b3) == WordOf(m, d0, d1, d2, d3)
      ensures b0 == d0 && b1 == d1 && b2 == d2 && b3 == d3
    {
      WordIsNumber(b0, b1, b2, b3);
      WordIsNumber(d0, d1, d2, d3);
    }
  }

  /** Damage confined to four neighbouring bytes, a burst of up to 32 bits, always changes the checksum. */
  lemma BurstChangesCrc(before: seq<Byte>, v: seq<Byte>, w: seq<Byte>, after: seq<Byte>)
    requires |v| == |w| <= 4
    ensures Crc(before + v + after) == Crc(before + w + after) <==> v == w
  {
    RegisterStepsAdd();
    RegisterAssociates();
    RegisterStepsDown();
    RegisterIsReversible();
    RegisterWordsAreBytes();
    BurstIsDetected(Register32(), ONES, before, v, w, after, 0);
    XorCancels(Register(Register32(), ONES, before + v + after), Register(Register32(), ONES, before + w + after), ONES);
  }
}

/**
 Base32 as the TOTP service writes and reads its secrets: no padding characters, and a 32-bit
 accumulator that is shifted left on every byte and never masked. The reference (section 6 of
 RFC 4648) reads both sides as big-endian numbers.
 */
module Base32 {
  import opened Arithmetic
  import opened Words

  type Quintet = d: int | 0 <= d < 32 witness 0

  /** x with n zero bits behind it. */
  function Shifted(x: nat, n: nat): nat {
    if n == 0 then x else 2 * Shifted(x, n - 1)
  }

  lemma {:induction false} ShiftedIsProduct(x: nat, n: nat)
    ensures Shifted(x, n) == x * Pow2(n)
  {
    if n != 0 {
      ShiftedIsProduct(x, n - 1);
      Reassociate(2, x, Pow2(n - 1));
      Reassociate(x, 2, Pow2(n - 1));
    }
  }

  // ---- the 32-bit accumulator ----

  /** value << n, and the last n bits of a register. */
  function ShiftLeft(value: Word, n: nat): Word {
    Shifted(value, n) % 0x1_0000_0000
  }

  function Low(value: Word, n: nat): nat {
    value % Pow2(n)
  }

  /** value & 31 and value & 255. */
  function LastFive(value: Word): Quintet {
    value % 32
  }

  function LastEight(value: Word): Byte {
    value % 256
  }

  /** Shifting left drops bits at the top only, so it is exact modulo any smaller power of two. */
  lemma ShiftLeftLow(value: Word, bits: nat, n: nat, low: nat)
    requires bits + n <= 32 && low < Pow2(n)
    ensures (ShiftLeft(value, n) + low) % Pow2(bits + n) == value % Pow2(bits) * Pow2(n) + low
  {
    ShiftedIsProduct(value, n);
    Powers();
    Pow2Adds(bits, n);
    Pow2Adds(32 - bits - n, bits + n);
    ScaledRemainder(value, Pow2(n), Pow2(bits), Pow2(32 - bits - n), 0x1_0000_0000, low);
  }

  /** (value << n) | low with low < 2^n: the low bits of the shifted value are clear, so nothing is carried. */
  function Append(value: Word, n: nat, low: nat): (r: Word)
    requires n <= 32 && low < Pow2(n)
  {
    NoCarry(value, n, low);
    ShiftLeft(value, n) + low
  }

  lemma NoCarry(value: Word, n: nat, low: nat)
    requires n <= 32 && low < Pow2(n)
    ensures ShiftLeft(value, n) % Pow2(n) == 0 && ShiftLeft(value, n) + low < 0x1_0000_0000
  {
    ShiftLeftLow(value, 0, n, 0);
    Powers();
    Pow2Adds(32 - n, n);
    Multiples(ShiftLeft(value, n), Pow2(n), Pow2(32 - n), low);
  }

  lemma Multiples(v: nat, c: nat, top: nat, low: nat)
    requires c > 0 && v % c == 0 && v < top * c && low < c
    ensures v + low < top * c
  {
    Division(v, c);
    if v / c >= top {
      Monotone(top, v / c, c);
    }
    DigitsFit(v / c, top, c, low);
  }

  /**
   A number of which `written` is already out and the rest is held in the last `bits` bits of the
   accumulator; whatever else the accumulator contains does not matter.
   */
  ghost predicate Held(total: nat, written: nat, value: Word, bits: nat) {
    total == Shifted(written, bits) + Low(value, bits)
  }

  lemma Appended(written: nat, pb: nat, held: nat, pn: nat, low: nat)
    ensures pn * (written * pb + held) + low == written * (pb * pn) + (held * pn + low)
  {
    Distribute(written * pb, held, pn);
    Reassociate(written, pb, pn);
  }

  lemma HeldReads(total: nat, written: nat, value: Word, bits: nat, n: nat, low: nat)
    requires Held(total, written, value, bits) && bits + n <= 32 && low < Pow2(n)
    ensures Held(Pow2(n) * total + low, written, Append(value, n, low), bits + n)
  {
    ShiftLeftLow(value, bits, n, low);
    Pow2Adds(bits, n);
    ShiftedIsProduct(written, bits);
    ShiftedIsProduct(written, bits + n);
    Appended(written, Pow2(bits), value % Pow2(bits), Pow2(n), low);
  }

  lemma Split(written: nat, h: nat, m: nat, digit: nat, rest: nat)
    ensures written * (h * m) + (digit * m + rest) == (h * written + digit) * m + rest
  {
    Reassociate(written, h, m);
    Distribute(written * h, digit, m);
  }

  lemma LowSplits(value: Word, bits: nat, n: nat)
    requires n <= bits
    ensures Low(value, bits) == ShiftRight(value, bits - n) % Pow2(n) * Pow2(bits - n) + Low(value, bits - n)
  {
    ShiftRightIsQuotient(value, bits - n);
    Pow2Adds(n, bits - n);
    SplitRemainder(value, Pow2(n), Pow2(bits - n));
  }

  lemma ShiftedSplits(written: nat, bits: nat, n: nat, digit: nat)
    requires n <= bits
    ensures Shifted(Pow2(n) * written + digit, bits - n) == Shifted(written, bits) + digit * Pow2(bits - n)
  {
    Pow2Adds(n, bits - n);
    ShiftedIsProduct(written, bits);
    ShiftedIsProduct(Pow2(n) * written + digit, bits - n);
    Split(written, Pow2(n), Pow2(bits - n), digit, 0);
  }

  lemma HeldWrites(total: nat, written: nat, value: Word, bits: nat, n: nat)
    requires Held(total, written, value, bits) && n <= bits
    ensures Held(total, Pow2(n) * written + ShiftRight(value, bits - n) % Pow2(n), value, bits - n)
  {
    LowSplits(value, bits, n);
    ShiftedSplits(written, bits, n, ShiftRight(value, bits - n) % Pow2(n));
  }

  // ---- the reference ----

  predicate IsLetter(c: char) {
    'A' <= c <= 'Z' || '2' <= c <= '7'
  }

  function Index(c: char): Quintet
    requires IsLetter(c)
  {
    if c >= 'A' then c as int - 'A' as int else 26 + c as int - '2' as int
  }

  function Letter(d: Quintet): (c: char)
    ensures IsLetter(c) && Index(c) == d
  {
    if d < 26 then ('A' as int + d) as char else ('2' as int + d - 26) as char
  }

  const ALPHABET := "ABCDEFGHIJKLMNOPQRSTUVWXYZ234567"

  /** Table 3 of RFC 4648. */
  lemma LettersAreTheAlphabet(d: Quintet)
    ensures |ALPHABET| == 32 && Letter(d) == ALPHABET[d]
  {
  }

  predicate InAlphabet(text: string) {
    forall i :: 0 <= i < |text| ==> IsLetter(text[i])
  }

  /** The number whose base-256 digits are these bytes. */
  function Number(bytes: seq<Byte>): nat {
    if bytes == [] then 0 else 256 * Number(bytes[..|bytes| - 1]) + bytes[|bytes| - 1]
  }

  /** The number whose base-32 digits are these letters. */
  function TextNumber(text: string): nat
    requires InAlphabet(text)
  {
    if text == [] then 0 else 32 * TextNumber(text[..|text| - 1]) + Index(text[|text| - 1])
  }

  /** RFC 4648: the bits of the bytes, filled up with zeros to whole quintets, letter by letter. */
  predicate Encodes(bytes: seq<Byte>, text: string) {
    && InAlphabet(text)
    && 0 <= 5 * |text| - 8 * |bytes| < 5
    && TextNumber(text) == Shifted(Number(bytes), 5 * |text| - 8 * |bytes|)
  }

  /** The whole bytes among the bits of the letters; bits that do not fill a byte are dropped. */
  predicate Decodes(text: string, bytes: seq<Byte>) {
    && InAlphabet(text)
    && 0 <= 5 * |text| - 8 * |bytes| < 8
    && Number(bytes) == TextNumber(text) / Pow2(5 * |text| - 8 * |bytes|)
  }

  lemma {:induction false} NumberInjective(a: seq<Byte>, b: seq<Byte>)
    requires |a| == |b| && Number(a) == Number(b)
    ensures a == b
  {
    if a != [] {
      var n := |a| - 1;
      NumberInjective(a[..n], b[..n]);
      assert a == a[..n] + [a[n]] && b == b[..n] + [b[n]];
    }
  }

  lemma {:induction false} TextNumberInjective(a: string, b: string)
    requires InAlphabet(a) && InAlphabet(b) && |a| == |b| && TextNumber(a) == TextNumber(b)
    ensures a == b
  {
    if a != [] {
      var n := |a| - 1;
      TextNumberInjective(a[..n], b[..n]);
      assert a == a[..n] + [a[n]] && b == b[..n] + [b[n]];
    }
  }

  /** Decoding an encoding gives the bytes back. */
  lemma DecodeInvertsEncode(bytes: seq<Byte>, text: string, back: seq<Byte>)
    requires Encodes(bytes, text) && Decodes(text, back)
    ensures back == bytes
  {
    var pad := 5 * |text| - 8 * |bytes|;
    assert |back| == |bytes|;
    ShiftedIsProduct(Number(bytes), pad);
    DivModAre(TextNumber(text), Pow2(pad), Number(bytes), 0);
    NumberInjective(bytes, back);
  }

  lemma LengthIs(n: nat, letters: nat)
    requires 0 <= 5 * letters - 8 * n < 5
    ensures letters == (8 * n + 4) / 5
  {
  }

  /** The encoding is unique, so no two byte strings share one and no byte string has two. */
  lemma EncodingIsUnique(bytes: seq<Byte>, text: string, other: string)
    requires Encodes(bytes, text) && Encodes(bytes, other)
    ensures text == other
    ensures |text| == (8 * |bytes| + 4) / 5
  {
    LengthIs(|bytes|, |text|);
    LengthIs(|bytes|, |other|);
    TextNumberInjective(text, other);
  }

  // ---- the service ----

  lemma LastLetter(text: string, d: Quintet)
    requires InAlphabet(text)
    ensures InAlphabet(text + [Letter(d)]) && TextNumber(text + [Letter(d)]) == 32 * TextNumber(text) + d
  {
    assert (text + [Letter(d)])[..|text|] == text;
  }

  lemma LastByte(bytes: seq<Byte>, b: Byte)
    ensures Number(bytes + [b]) == 256 * Number(bytes) + b
  {
    assert (bytes + [b])[..|bytes|] == bytes;
  }

  ghost predicate EncoderAt(read: seq<Byte>, output: string, value: Word, bits: nat) {
    InAlphabet(output) && 5 * |output| + bits == 8 * |read| && Held(Number(read), TextNumber(output), value, bits)
  }

  lemma EncoderReads(read: seq<Byte>, output: string, value: Word, bits: nat, byte: Byte)
    requires EncoderAt(read, output, value, bits) && bits < 5
    ensures Pow2(8) == 256 && EncoderAt(read + [byte], output, Append(value, 8, byte), bits + 8)
  {
    Powers();
    LastByte(read, byte);
    HeldReads(Number(read), TextNumber(output), value, bits, 8, byte);
  }

  lemma EncoderWrites(read: seq<Byte>, output: string, value: Word, bits: nat)
    requires EncoderAt(read, output, value, bits) && bits >= 5
    ensures EncoderAt(read, output + [Letter(LastFive(ShiftRight(value, bits - 5)))], value, bits - 5)
  {
    Powers();
    LastLetter(output, LastFive(ShiftRight(value, bits - 5)));
    HeldWrites(Number(read), TextNumber(output), value, bits, 5);
  }

  lemma LastQuintet(value: Word, bits: nat)
    requires bits <= 5
    ensures ShiftLeft(value, 5 - bits) % 32 == Low(value, bits) * Pow2(5 - bits)
  {
    Powers();
    ShiftLeftLow(value, bits, 5 - bits, 0);
  }

  lemma TimesFiller(total: nat, written: nat, pb: nat, held: nat, pn: nat)
    requires total == written * pb + held && pb * pn == 32
    ensures total * pn == 32 * written + held * pn
  {
    Distribute(written * pb, held, pn);
    Reassociate(written, pb, pn);
  }

  lemma FilledUp(total: nat, written: nat, value: Word, bits: nat)
    requires Held(total, written, value, bits) && bits <= 5
    ensures 32 * written + Low(value, bits) * Pow2(5 - bits) == Shifted(total, 5 - bits)
  {
    ShiftedIsProduct(written, bits);
    ShiftedIsProduct(total, 5 - bits);
    FiveBits(bits);
    TimesFiller(total, written, Pow2(bits), Low(value, bits), Pow2(5 - bits));
  }

  lemma FiveBits(bits: nat)
    requires bits <= 5
    ensures Pow2(bits) * Pow2(5 - bits) == 32
  {
    Powers();
    Pow2Adds(bits, 5 - bits);
  }

  /** The last letter is filled up with zeros. */
  lemma EncoderEnds(read: seq<Byte>, output: string, value: Word, bits: nat)
    requires EncoderAt(read, output, value, bits) && bits < 5
    ensures bits == 0 ==> Encodes(read, output)
    ensures bits > 0 ==> Encodes(read, output + [Letter(LastFive(ShiftLeft(value, 5 - bits)))])
  {
    LastQuintet(value, bits);
    LastLetter(output, LastFive(ShiftLeft(value, 5 - bits)));
    FilledUp(Number(read), TextNumber(output), value, bits);
  }

  /** What the loops hold: the letters written, the register and the number of bits still in it. */
  datatype Encoder = Encoder(output: string, value: Word, bits: nat)

  /** The inner loop. */
  function WriteQuintets(e: Encoder): Encoder
    decreases e.bits
  {
    if e.bits < 5 then e
    else WriteQuintets(Encoder(e.output + [Letter(LastFive(ShiftRight(e.value, e.bits - 5)))], e.value, e.bits - 5))
  }

  function AfterBytes(bytes: seq<Byte>): Encoder {
    if bytes == [] then Encoder("", 0, 0)
    else
      var e := AfterBytes(bytes[..|bytes| - 1]);
      Powers();
      WriteQuintets(Encoder(e.output, Append(e.value, 8, bytes[|bytes| - 1]), e.bits + 8))
  }

  function Encoded(bytes: seq<Byte>): string {
    var e := AfterBytes(bytes);
    if 0 < e.bits < 5 then e.output + [Letter(LastFive(ShiftLeft(e.value, 5 - e.bits)))] else e.output
  }

  lemma {:induction false} WriteQuintetsKeeps(read: seq<Byte>, e: Encoder)
    requires EncoderAt(read, e.output, e.value, e.bits)
    ensures var after := WriteQuintets(e); after.bits < 5 && EncoderAt(read, after.output, after.value, after.bits)
    decreases e.bits
  {
    if e.bits >= 5 {
      EncoderWrites(read, e.output, e.value, e.bits);
      WriteQuintetsKeeps(read, Encoder(e.output + [Letter(LastFive(ShiftRight(e.value, e.bits - 5)))], e.value, e.bits - 5));
    }
  }

  lemma {:induction false} AfterBytesHolds(bytes: seq<Byte>)
    ensures var e := AfterBytes(bytes); e.bits < 5 && EncoderAt(bytes, e.output, e.value, e.bits)
  {
    if bytes != [] {
      var n := |bytes| - 1;
      AfterBytesHolds(bytes[..n]);
      var e := AfterBytes(bytes[..n]);
      assert bytes[..n] + [bytes[n]] == bytes;
      EncoderReads(bytes[..n], e.output, e.value, e.bits, bytes[n]);
      WriteQuintetsKeeps(bytes, Encoder(e.output, Append(e.value, 8, bytes[n]), e.bits + 8));
    }
  }

  /** The encoder writes what RFC 4648 asks for. */
  lemma EncodedEncodes(bytes: seq<Byte>)
    ensures Encodes(bytes, Encoded(bytes))
  {
    AfterBytesHolds(bytes);
    var e := AfterBytes(bytes);
    EncoderEnds(bytes, e.output, e.value, e.bits);
  }

  method Encode(buffer: seq<Byte>) returns (output: string)
    ensures output == Encoded(buffer)
  {
    var value: Word, bits: nat := 0, 0;
    output := "";
    for i := 0 to |buffer|
      invariant Encoder(output, value, bits) == AfterBytes(buffer[..i])
    {
      Powers();
      assert buffer[..i + 1][..i] == buffer[..i];
      value := Append(value, 8, buffer[i]);
      bits := bits + 8;
      while bits >= 5
        invariant WriteQuintets(Encoder(output, value, bits)) == AfterBytes(buffer[..i + 1])
      {
        output := output + [Letter(LastFive(ShiftRight(value, bits - 5)))];
        bits := bits - 5;
      }
    }
    assert buffer[..|buffer|] == buffer;
    AfterBytesHolds(buffer);
    if bits > 0 {
      output := output + [Letter(LastFive(ShiftLeft(value, 5 - bits)))];
    }
  }

  /** toUpperCase, then everything outside the alphabet removed; `upper` is the case mapping of one character. */
  function Letters(value: string, upper: char -> string): (r: string)
    ensures InAlphabet(r)
  {
    if value == [] then [] else Kept(upper(value[0])) + Letters(value[1..], upper)
  }

  function Kept(s: string): (r: string)
    ensures InAlphabet(r)
    ensures InAlphabet(s) ==> r == s
  {
    if s == [] then [] else (if IsLetter(s[0]) then [s[0]] else []) + Kept(s[1..])
  }

  lemma {:induction false} KeptConcat(a: string, b: string)
    ensures Kept(a + b) == Kept(a) + Kept(b)
  {
    hide InAlphabet, IsLetter;
    if a == "" {
      assert a + b == b;
    } else {
      KeptConcat(a[1..], b);
      assert (a + b)[1..] == a[1..] + b && (a + b)[0] == a[0];
      var first := if IsLetter(a[0]) then [a[0]] else [];
      assert Kept(a) == first + Kept(a[1..]) && Kept(a + b) == first + (Kept(a[1..]) + Kept(b));
    }
  }

  lemma {:induction false} LettersConcat(a: string, b: string, upper: char -> string)
    ensures Letters(a + b, upper) == Letters(a, upper) + Letters(b, upper)
  {
    hide InAlphabet, IsLetter, Kept;
    if a == "" {
      assert a + b == b;
    } else {
      LettersConcat(a[1..], b, upper);
      assert (a + b)[1..] == a[1..] + b && (a + b)[0] == a[0];
    }
  }

  lemma OneCharacter(c: char, upper: char -> string)
    ensures Letters([c], upper) == Kept(upper(c))
    ensures Kept([c]) == if 'A' <= c <= 'Z' || '2' <= c <= '7' then [c] else ""
  {
    hide InAlphabet;
    assert [c][1..] == "" && Letters("", upper) == "" && Kept("") == "";
    assert Kept(upper(c)) + "" == Kept(upper(c));
  }

  /** Of a text the decoder reads every character in turn, in upper case, and of that the letters of the alphabet alone. */
  lemma EachCharacterIsRead(a: string, c: char, b: string, upper: char -> string)
    ensures Letters(a + [c] + b, upper) == Letters(a, upper) + Kept(upper(c)) + Letters(b, upper)
    ensures Kept(a + [c] + b) == Kept(a) + (if 'A' <= c <= 'Z' || '2' <= c <= '7' then [c] else "") + Kept(b)
  {
    hide Letters, Kept, InAlphabet, IsLetter;
    LettersConcat(a + [c], b, upper);
    LettersConcat(a, [c], upper);
    KeptConcat(a + [c], b);
    KeptConcat(a, [c]);
    OneCharacter(c, upper);
  }

  lemma {:induction false} LettersOfEncoding(text: string, upper: char -> string)
    requires InAlphabet(text) && forall c :: IsLetter(c) ==> upper(c) == [c]
    ensures Letters(text, upper) == text
  {
    if text != [] {
      LettersOfEncoding(text[1..], upper);
    }
  }

  ghost predicate DecoderAt(read: string, output: seq<Byte>, current: Word, bits: nat) {
    InAlphabet(read) && 8 * |output| + bits == 5 * |read| && Held(TextNumber(read), Number(output), current, bits)
  }

  lemma DecoderReads(read: string, output: seq<Byte>, current: Word, bits: nat, c: char)
    requires DecoderAt(read, output, current, bits) && bits < 8 && IsLetter(c)
    ensures Pow2(5) == 32 && DecoderAt(read + [c], output, Append(current, 5, Index(c)), bits + 5)
  {
    Powers();
    assert (read + [c])[..|read|] == read;
    HeldReads(TextNumber(read), Number(output), current, bits, 5, Index(c));
  }

  lemma DecoderWrites(read: string, output: seq<Byte>, current: Word, bits: nat)
    requires DecoderAt(read, output, current, bits) && bits >= 8
    ensures DecoderAt(read, output + [LastEight(ShiftRight(current, bits - 8))], current, bits - 8)
  {
    Powers();
    LastByte(output, LastEight(ShiftRight(current, bits - 8)));
    HeldWrites(TextNumber(read), Number(output), current, bits, 8);
  }

  lemma DecoderEnds(read: string, output: seq<Byte>, current: Word, bits: nat)
    requires DecoderAt(read, output, current, bits) && bits < 8
    ensures Decodes(read, output)
  {
    ShiftedIsProduct(Number(output), bits);
    DivModAre(TextNumber(read), Pow2(bits), Number(output), current % Pow2(bits));
  }

  datatype Decoder = Decoder(output: seq<Byte>, current: Word, bits: nat)

  function AfterLetters(letters: string): Decoder
    requires InAlphabet(letters)
  {
    if letters == [] then Decoder([], 0, 0)
    else
      var d := AfterLetters(letters[..|letters| - 1]);
      Powers();
      var current, bits := Append(d.current, 5, Index(letters[|letters| - 1])), d.bits + 5;
      if bits >= 8 then Decoder(d.output + [LastEight(ShiftRight(current, bits - 8))], current, bits - 8)
      else Decoder(d.output, current, bits)
  }

  function Decoded(value: string, upper: char -> string): seq<Byte> {
    AfterLetters(Letters(value, upper)).output
  }

  lemma {:induction false} AfterLettersHolds(letters: string)
    requires InAlphabet(letters)
    ensures var d := AfterLetters(letters); d.bits < 8 && DecoderAt(letters, d.output, d.current, d.bits)
  {
    if letters != [] {
      var n := |letters| - 1;
      AfterLettersHolds(letters[..n]);
      var d := AfterLetters(letters[..n]);
      assert letters[..n] + [letters[n]] == letters;
      DecoderReads(letters[..n], d.output, d.current, d.bits, letters[n]);
      var current, bits := Append(d.current, 5, Index(letters[n])), d.bits + 5;
      if bits >= 8 {
        DecoderWrites(letters, d.output, current, bits);
      }
    }
  }

  /** On any text at all, the decoder gives the whole bytes among the bits of its letters. */
  lemma DecodedDecodes(value: string, upper: char -> string)
    ensures Decodes(Letters(value, upper), Decoded(value, upper))
  {
    var letters := Letters(value, upper);
    AfterLettersHolds(letters);
    var d := AfterLetters(letters);
    DecoderEnds(letters, d.output, d.current, d.bits);
  }

  method Decode(value: string, upper: char -> string) returns (output: seq<Byte>)
    ensures output == Decoded(value, upper)
  {
    var letters := Letters(value, upper);
    var current: Word, bits: nat := 0, 0;
    output := [];
    for i := 0 to |letters|
      invariant Decoder(output, current, bits) == AfterLetters(letters[..i])
    {
      Powers();
      assert letters[..i + 1][..i] == letters[..i];
      current := Append(current, 5, Index(letters[i]));
      bits := bits + 5;
      if bits >= 8 {
        output := output + [LastEight(ShiftRight(current, bits - 8))];
        bits := bits - 8;
      }
    }
    assert letters[..|letters|] == letters;
  }

  /** Decoding gives back what was encoded, whatever the case mapping does outside the alphabet. */
  lemma RoundTrip(bytes: seq<Byte>, upper: char -> string)
    requires forall c :: IsLetter(c) ==> upper(c) == [c]
    ensures Decoded(Encoded(bytes), upper) == bytes
    ensures |Encoded(bytes)| == (8 * |bytes| + 4) / 5
  {
    EncodedEncodes(bytes);
    LettersOfEncoding(Encoded(bytes), upper);
    DecodedDecodes(Encoded(bytes), upper);
    DecodeInvertsEncode(bytes, Encoded(bytes), Decoded(Encoded(bytes), upper));
    EncodingIsUnique(bytes, Encoded(bytes), Encoded(bytes));
  }
}

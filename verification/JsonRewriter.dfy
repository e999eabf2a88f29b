/**
 The rewriting that keeps large integers exact: integers of a JSON text that a double cannot hold
 are put into quotes before the text is parsed. The rewriter scans characters; it does not parse.
 */
module JsonRewriter {

  const MAX_SAFE_INTEGER := 9007199254740991

  predicate IsDigit(c: char) {
    '0' <= c <= '9'
  }

  predicate AllDigits(s: string) {
    forall i :: 0 <= i < |s| ==> IsDigit(s[i])
  }

  // ---- which tokens are quoted ----

  function Unsigned(token: string): string {
    if token != "" && token[0] == '-' then token[1..] else token
  }

  /** -?\d+ */
  predicate IsInteger(token: string) {
    Unsigned(token) != "" && AllDigits(Unsigned(token))
  }

  function NatValue(digits: string): nat
    requires AllDigits(digits)
  {
    if digits == "" then 0
    else 10 * NatValue(digits[..|digits| - 1]) + (digits[|digits| - 1] as int - '0' as int)
  }

  /** The absolute value of an integer token. */
  function Magnitude(token: string): nat
    requires IsInteger(token)
  {
    NatValue(Unsigned(token))
  }

  predicate ShouldQuote(token: string) {
    IsInteger(token) && |Unsigned(token)| >= 16 && Magnitude(token) > MAX_SAFE_INTEGER
  }

  function Pow10(n: nat): (p: nat)
    ensures p > 0
  {
    if n == 0 then 1 else 10 * Pow10(n - 1)
  }

  lemma {:induction false} NatValueBelow(digits: string)
    requires AllDigits(digits)
    ensures NatValue(digits) < Pow10(|digits|)
  {
    if digits != "" {
      NatValueBelow(digits[..|digits| - 1]);
    }
  }

  lemma {:induction false} Pow10Grows(m: nat, n: nat)
    requires m <= n
    ensures Pow10(m) <= Pow10(n)
    decreases n
  {
    if m < n {
      Pow10Grows(m, n - 1);
    }
  }

  /** The shortcut for tokens below 16 digits never decides differently from the value. */
  lemma ShortcutAgreesWithValue(token: string)
    ensures ShouldQuote(token) <==> IsInteger(token) && Magnitude(token) > MAX_SAFE_INTEGER
  {
    if IsInteger(token) && |Unsigned(token)| < 16 {
      NatValueBelow(Unsigned(token));
      Pow10Grows(|Unsigned(token)|, 15);
      assert Pow10(5) == 100000;
      assert Pow10(10) == 100000 * Pow10(5);
      assert Pow10(15) == 100000 * Pow10(10);
    }
  }

  // ---- scanning ----

  function DigitsEnd(t: string, i: nat): (end: nat)
    requires i <= |t|
    ensures i <= end <= |t| && (forall k :: i <= k < end ==> IsDigit(t[k])) && (end < |t| ==> !IsDigit(t[end]))
    decreases |t| - i
  {
    if i < |t| && IsDigit(t[i]) then DigitsEnd(t, i + 1) else i
  }

  /** The end of a string, from inside it; an unterminated string runs to the end of the text. */
  function StringEnd(t: string, i: nat, escaped: bool): (end: nat)
    requires i <= |t|
    ensures i <= end <= |t|
    decreases |t| - i
  {
    if i == |t| then i
    else if escaped then StringEnd(t, i + 1, false)
    else if t[i] == '\\' then StringEnd(t, i + 1, true)
    else if t[i] == '"' then i + 1
    else StringEnd(t, i + 1, false)
  }

  function WholeEnd(t: string, i: nat): (end: nat)
    requires i <= |t|
    ensures i <= end <= |t|
  {
    DigitsEnd(t, if i < |t| && t[i] == '-' then i + 1 else i)
  }

  function FractionEnd(t: string, i: nat): (end: nat)
    requires i <= |t|
    ensures i <= end <= |t|
  {
    if i < |t| && t[i] == '.' then DigitsEnd(t, i + 1) else i
  }

  function ExponentEnd(t: string, i: nat): (end: nat)
    requires i <= |t|
    ensures i <= end <= |t|
  {
    if i < |t| && (t[i] == 'e' || t[i] == 'E') then
      DigitsEnd(t, if i + 1 < |t| && (t[i + 1] == '+' || t[i + 1] == '-') then i + 2 else i + 1)
    else i
  }

  function NumberEnd(t: string, i: nat): (end: nat)
    requires i <= |t|
    ensures i <= end <= |t|
  {
    ExponentEnd(t, FractionEnd(t, WholeEnd(t, i)))
  }

  predicate StartsNumber(c: char) {
    c == '-' || IsDigit(c)
  }

  // ---- the rewriter ----

  datatype Chunk = Chunk(length: nat, output: string)

  function Rewritten(token: string, integral: bool): string {
    if integral && ShouldQuote(token) then "\"" + token + "\"" else token
  }

  /** One turn of the main loop: how much is read and what is written. */
  function FirstChunk(t: string): (c: Chunk)
    requires t != ""
    ensures 0 < c.length <= |t| && |c.output| >= c.length
  {
    if t[0] == '"' then
      var n := StringEnd(t, 1, false);
      Chunk(n, t[..n])
    else if StartsNumber(t[0]) then
      var n := NumberEnd(t, 0);
      Chunk(n, Rewritten(t[..n], n == WholeEnd(t, 0)))
    else Chunk(1, [t[0]])
  }

  function Quote(t: string): (r: string)
    ensures |r| >= |t|
  {
    if t == "" then ""
    else
      var c := FirstChunk(t);
      c.output + Quote(t[c.length..])
  }

  // ---- the loop that computes it ----

  lemma {:induction false} DigitsEndShifts(t: string, i: nat, k: nat)
    requires i + k <= |t|
    ensures DigitsEnd(t, i + k) == i + DigitsEnd(t[i..], k)
    decreases |t| - k
  {
    if i + k < |t| && IsDigit(t[i + k]) {
      DigitsEndShifts(t, i, k + 1);
    }
  }

  lemma {:induction false} StringEndShifts(t: string, i: nat, k: nat, escaped: bool)
    requires i + k <= |t|
    ensures StringEnd(t, i + k, escaped) == i + StringEnd(t[i..], k, escaped)
    decreases |t| - k
  {
    if i + k < |t| {
      StringEndShifts(t, i, k + 1, !escaped && t[i + k] == '\\');
    }
  }

  lemma WholeEndShifts(t: string, i: nat)
    requires i <= |t|
    ensures WholeEnd(t, i) == i + WholeEnd(t[i..], 0)
  {
    DigitsEndShifts(t, i, if i < |t| && t[i] == '-' then 1 else 0);
  }

  lemma FractionEndShifts(t: string, i: nat, k: nat)
    requires i + k <= |t|
    ensures FractionEnd(t, i + k) == i + FractionEnd(t[i..], k)
  {
    if i + k < |t| {
      DigitsEndShifts(t, i, k + 1);
    }
  }

  lemma ExponentEndShifts(t: string, i: nat, k: nat)
    requires i + k <= |t|
    ensures ExponentEnd(t, i + k) == i + ExponentEnd(t[i..], k)
  {
    if i + k < |t| {
      DigitsEndShifts(t, i, k + 1);
      if i + k + 1 < |t| {
        DigitsEndShifts(t, i, k + 2);
      }
    }
  }

  lemma NumberEndShifts(t: string, i: nat)
    requires i <= |t|
    ensures NumberEnd(t, i) == i + NumberEnd(t[i..], 0)
  {
    WholeEndShifts(t, i);
    FractionEndShifts(t, i, WholeEnd(t[i..], 0));
    ExponentEndShifts(t, i, FractionEnd(t[i..], WholeEnd(t[i..], 0)));
  }

  method SkipDigits(rawText: string, start: nat) returns (index: nat)
    requires start <= |rawText|
    ensures index == DigitsEnd(rawText, start)
  {
    index := start;
    while index < |rawText| && IsDigit(rawText[index])
      invariant start <= index <= |rawText| && DigitsEnd(rawText, index) == DigitsEnd(rawText, start)
    {
      index := index + 1;
    }
  }

  method SkipString(rawText: string, stringStart: nat) returns (index: nat)
    requires stringStart < |rawText|
    ensures index == StringEnd(rawText, stringStart + 1, false)
  {
    index := stringStart + 1;
    var escaped := false;
    while index < |rawText|
      invariant index <= |rawText| && StringEnd(rawText, index, escaped) == StringEnd(rawText, stringStart + 1, false)
    {
      var current := rawText[index];
      index := index + 1;
      if escaped {
        escaped := false;
        continue;
      }
      if current == '\\' {
        escaped := true;
        continue;
      }
      if current == '"' { return; }
    }
  }

  method SkipNumber(rawText: string, numberStart: nat) returns (index: nat, hasFractionOrExponent: bool)
    requires numberStart < |rawText|
    ensures index == NumberEnd(rawText, numberStart)
    ensures hasFractionOrExponent <==> index != WholeEnd(rawText, numberStart)
  {
    index := numberStart;
    if rawText[index] == '-' { index := index + 1; }
    index := SkipDigits(rawText, index);
    ghost var whole := index;
    assert whole == WholeEnd(rawText, numberStart);
    hasFractionOrExponent := false;
    if index < |rawText| && rawText[index] == '.' {
      hasFractionOrExponent := true;
      index := SkipDigits(rawText, index + 1);
    }
    ghost var fraction := index;
    assert fraction == FractionEnd(rawText, whole);
    if index < |rawText| && (rawText[index] == 'e' || rawText[index] == 'E') {
      hasFractionOrExponent := true;
      index := index + 1;
      if index < |rawText| && (rawText[index] == '+' || rawText[index] == '-') { index := index + 1; }
      index := SkipDigits(rawText, index);
    }
    assert index == ExponentEnd(rawText, fraction);
  }

  lemma StringChunkAt(t: string, i: nat, end: nat)
    requires i < |t| && t[i] == '"' && end == StringEnd(t, i + 1, false)
    ensures FirstChunk(t[i..]) == Chunk(end - i, t[i..end])
  {
    StringEndShifts(t, i, 1, false);
    assert t[i..][..end - i] == t[i..end];
  }

  lemma NumberChunkIs(s: string, n: nat, token: string, integral: bool)
    requires s != "" && StartsNumber(s[0]) && n == NumberEnd(s, 0) && token == s[..n] && integral == (n == WholeEnd(s, 0))
    ensures FirstChunk(s) == Chunk(n, Rewritten(token, integral))
  {
  }

  lemma NumberChunkAt(t: string, i: nat, end: nat)
    requires i < |t| && StartsNumber(t[i]) && end == NumberEnd(t, i)
    ensures FirstChunk(t[i..]) == Chunk(end - i, Rewritten(t[i..end], end == WholeEnd(t, i)))
  {
    NumberEndShifts(t, i);
    WholeEndShifts(t, i);
    assert t[i..][..end - i] == t[i..end];
    NumberChunkIs(t[i..], end - i, t[i..end], end == WholeEnd(t, i));
  }

  /** One turn of the main loop. */
  method ReadChunk(rawText: string, start: nat) returns (index: nat, written: string)
    requires start < |rawText|
    ensures start < index <= |rawText| && Chunk(index - start, written) == FirstChunk(rawText[start..])
  {
    var first := rawText[start];
    if first == '"' {
      index := SkipString(rawText, start);
      written := rawText[start..index];
      StringChunkAt(rawText, start, index);
    } else if StartsNumber(first) {
      var hasFractionOrExponent;
      index, hasFractionOrExponent := SkipNumber(rawText, start);
      var token := rawText[start..index];
      written := if !hasFractionOrExponent && ShouldQuote(token) then "\"" + token + "\"" else token;
      NumberChunkAt(rawText, start, index);
    } else {
      index, written := start + 1, [first];
    }
  }

  lemma QuoteStep(t: string, i: nat, end: nat, written: string)
    requires i < end <= |t| && Chunk(end - i, written) == FirstChunk(t[i..])
    ensures Quote(t[i..]) == written + Quote(t[end..])
  {
    assert t[i..][end - i..] == t[end..];
  }

  lemma LoopStep(output: string, t: string, i: nat, end: nat, written: string)
    requires i < end <= |t| && Chunk(end - i, written) == FirstChunk(t[i..])
    ensures output + Quote(t[i..]) == output + written + Quote(t[end..])
  {
    QuoteStep(t, i, end, written);
  }

  method QuoteUnsafeIntegers(rawText: string) returns (output: string)
    ensures output == Quote(rawText)
  {
    output := "";
    var index := 0;
    while index < |rawText|
      invariant index <= |rawText| && output + Quote(rawText[index..]) == Quote(rawText)
    {
      var next, written := ReadChunk(rawText, index);
      LoopStep(output, rawText, index, next, written);
      output := output + written;
      index := next;
    }
  }
}

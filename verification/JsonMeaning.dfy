/**
 What the rewriter does to the meaning of a JSON text: the same tree, with exactly the integers
 above 2^53-1 in magnitude turned into the strings of their digits.
 */
module JsonMeaning {
  import opened Common
  import opened JsonRewriter
  import opened JsonIdempotence
  import opened JsonGrammar

  function Codes(s: string): (r: seq<nat>)
    ensures |r| == |s| && forall i :: 0 <= i < |s| ==> r[i] == s[i] as int
  {
    seq(|s|, i requires 0 <= i < |s| => s[i] as int)
  }

  function LiftLexeme(token: Lexeme): Lexeme {
    if token.Num? && ShouldQuote(token.token) then Str(Codes(token.token)) else token
  }

  function LiftLexemes(ts: seq<Lexeme>): (r: seq<Lexeme>)
    ensures |r| == |ts| && forall i :: 0 <= i < |ts| ==> r[i] == LiftLexeme(ts[i])
  {
    seq(|ts|, i requires 0 <= i < |ts| => LiftLexeme(ts[i]))
  }

  /** The tree with its unsafe integers as strings. */
  function Lift(v: Value): Value
    decreases v, 1
  {
    match v
    case Number(token) => if ShouldQuote(token) then Text(Codes(token)) else v
    case Array(items) => Array(LiftItems(items))
    case Object(members) => Object(LiftMembers(members))
    case _ => v
  }

  function LiftItems(items: seq<Value>): seq<Value>
    decreases items, 0
  {
    if items == [] then [] else [Lift(items[0])] + LiftItems(items[1..])
  }

  function LiftMembers(members: seq<Member>): seq<Member>
    decreases members, 0
  {
    if members == [] then [] else [Member(members[0].name, Lift(members[0].value))] + LiftMembers(members[1..])
  }

  // ---- numbers of the grammar, as the rewriter scans them ----

  lemma {:induction false} DigitsEndIs(t: string, i: nat, end: nat)
    requires i <= end <= |t| && AllDigits(t[i..end]) && (end < |t| ==> !IsDigit(t[end]))
    ensures DigitsEnd(t, i) == end
    decreases end - i
  {
    if i < end {
      assert t[i] == t[i..end][0];
      assert t[i + 1..end] == t[i..end][1..];
      DigitsEndIs(t, i + 1, end);
    }
  }

  lemma SliceOfPrefix(t: string, s: string, a: nat, b: nat)
    requires |s| <= |t| && s == t[..|s|] && a <= b <= |s|
    ensures s[a..b] == t[a..b]
  {
  }

  lemma WholeEndIs(t: string, s: string, i: nat, f: nat)
    requires |s| <= |t| && s == t[..|s|] && NumberParts(s, i, f) && (|s| < |t| ==> !InNumber(t[|s|]))
    ensures WholeEnd(t, 0) == i && s != ""
  {
    var sign := if s != "" && s[0] == '-' then 1 else 0;
    SliceOfPrefix(t, s, sign, i);
    if i < |s| {
      if i < f { assert s[i] == s[i..f][0]; } else { assert s[i] == s[f..][0]; }
    }
    DigitsEndIs(t, sign, i);
  }

  lemma FractionEndIs(t: string, s: string, i: nat, f: nat)
    requires |s| <= |t| && s == t[..|s|] && NumberParts(s, i, f) && (|s| < |t| ==> !InNumber(t[|s|]))
    ensures FractionEnd(t, i) == f
  {
    if f < |s| {
      assert s[f] == s[f..][0];
    }
    if i < f {
      assert s[i] == s[i..f][0];
      assert s[i..f][1..] == s[i + 1..f];
      SliceOfPrefix(t, s, i + 1, f);
      DigitsEndIs(t, i + 1, f);
    }
  }

  lemma ExponentEndIs(t: string, s: string, i: nat, f: nat)
    requires |s| <= |t| && s == t[..|s|] && NumberParts(s, i, f) && (|s| < |t| ==> !InNumber(t[|s|]))
    ensures ExponentEnd(t, f) == |s|
  {
    var x := s[f..];
    if x != "" {
      assert x[0] == s[f] && x[1] == s[f + 1];
      if AllDigits(x[1..]) {
        assert x[1..] == s[f + 1..|s|];
        SliceOfPrefix(t, s, f + 1, |s|);
        assert x[1] == x[1..][0];
        DigitsEndIs(t, f + 1, |s|);
      } else {
        assert x[2..] == s[f + 2..|s|];
        SliceOfPrefix(t, s, f + 2, |s|);
        DigitsEndIs(t, f + 2, |s|);
      }
    }
  }

  /** On a number of the grammar the rewriter's scan is exact, and it takes it for an integer exactly when it is one. */
  lemma NumberScanned(t: string, n: nat)
    requires n <= |t| && IsNumber(t[..n]) && (n < |t| ==> !InNumber(t[n]))
    ensures 0 < n == NumberEnd(t, 0) && (n == WholeEnd(t, 0) <==> IsInteger(t[..n]))
  {
    var s := t[..n];
    var i, f :| NumberParts(s, i, f);
    WholeEndIs(t, s, i, f);
    FractionEndIs(t, s, i, f);
    ExponentEndIs(t, s, i, f);
    IntegerParts(s, i, f);
  }

  lemma IntegerParts(s: string, i: nat, f: nat)
    requires NumberParts(s, i, f) && s != ""
    ensures i == |s| <==> IsInteger(s)
  {
    var sign := if s[0] == '-' then 1 else 0;
    if i == |s| {
      assert s[sign..i] == Unsigned(s);
    } else {
      if i < f { assert s[i] == s[i..f][0]; } else { assert s[i] == s[f..][0]; }
      assert Unsigned(s)[i - sign] == s[i];
    }
  }

  // ---- strings of the grammar, as the rewriter scans them ----

  lemma {:induction false} StringScanned(t: string, i: nat)
    requires i <= |t| && StringBody(t, i).Some?
    ensures StringEnd(t, i, false) == StringBody(t, i).value.1
    decreases |t| - i
  {
    if t[i] != '"' {
      if t[i] != '\\' {
        StringScanned(t, i + 1);
      } else if t[i + 1] == 'u' {
        StringScanned(t, i + 6);
        FourHexDigits(t, i + 2);
      } else {
        StringScanned(t, i + 2);
      }
    }
  }

  lemma FourHexDigits(t: string, i: nat)
    requires i + 4 <= |t|
    requires HexDigit(t[i]).Some? && HexDigit(t[i + 1]).Some? && HexDigit(t[i + 2]).Some? && HexDigit(t[i + 3]).Some?
    ensures StringEnd(t, i, false) == StringEnd(t, i + 4, false)
  {
    assert StringEnd(t, i, false) == StringEnd(t, i + 1, false);
    assert StringEnd(t, i + 1, false) == StringEnd(t, i + 2, false);
    assert StringEnd(t, i + 2, false) == StringEnd(t, i + 3, false);
  }

  /** A string reads the same whatever follows it. */
  lemma {:induction false} SameBody(t: string, u: string, n: nat, i: nat)
    requires n <= |t| && n <= |u| && u[..n] == t[..n] && i <= n
    requires StringBody(t, i).Some? && StringBody(t, i).value.1 == n
    ensures StringBody(u, i) == StringBody(t, i)
    decreases n - i
  {
    assert forall k :: 0 <= k < n ==> u[k] == u[..n][k] && t[k] == t[..n][k];
    if t[i] != '"' {
      if t[i] != '\\' {
        SameBody(t, u, n, i + 1);
      } else if t[i + 1] == 'u' {
        SameBody(t, u, n, i + 6);
      } else {
        SameBody(t, u, n, i + 2);
      }
    }
  }

  /** The digits of an integer between quotes are a string of those digits. */
  lemma {:induction false} QuotedBody(u: string, token: string, i: nat)
    requires |u| > |token| + 1 && 1 <= i <= |token| + 1 && u[|token| + 1] == '"'
    requires forall k :: 0 <= k < |token| ==> u[k + 1] == token[k] && StartsNumber(token[k])
    ensures StringBody(u, i) == Some((Codes(token)[i - 1..], |token| + 2))
    decreases |token| + 1 - i
  {
    if i == |token| + 1 {
      assert Codes(token)[i - 1..] == [];
    } else {
      assert u[i] == token[i - 1];
      QuotedBody(u, token, i + 1);
      assert Codes(token)[i - 1..] == [token[i - 1] as int] + Codes(token)[i..];
    }
  }

  // ---- lexeme by lexeme ----

  lemma {:induction false} RunEndIs(t: string, u: string, n: nat, i: nat)
    requires n <= |t| && n <= |u| && u[..n] == t[..n] && i <= n && RunEnd(t, i) == n
    requires n < |u| ==> !InNumber(u[n])
    ensures RunEnd(u, i) == n
    decreases n - i
  {
    if i < n {
      assert u[i] == u[..n][i] && t[i] == t[..n][i];
      RunEndIs(t, u, n, i + 1);
    }
  }

  /** Characters that are copied one by one. */
  predicate IsPlain(c: char) {
    c != '"' && !StartsNumber(c)
  }

  lemma PlainChunk(t: string)
    requires t != "" && IsPlain(t[0])
    ensures Quote(t) == [t[0]] + Quote(t[1..])
  {
  }

  lemma CopiedTogether(t: string, n: nat, tail: string, end: string, whole: string)
    requires 0 < n <= |t| && tail == t[1..][..n - 1] + end && whole == [t[0]] + tail
    ensures whole == t[..n] + end
  {
    assert t[..n] == [t[0]] + t[1..][..n - 1];
  }

  lemma {:induction false} PlainIsCopied(t: string, n: nat)
    requires n <= |t| && forall k :: 0 <= k < n ==> IsPlain(t[k])
    ensures Quote(t) == t[..n] + Quote(t[n..])
  {
    if n == 0 {
      assert t[0..] == t;
    } else {
      assert t[1..][n - 1..] == t[n..];
      PlainIsCopied(t[1..], n - 1);
      PlainChunk(t);
      CopiedTogether(t, n, Quote(t[1..]), Quote(t[n..]), Quote(t));
    }
  }

  predicate IsLiteral(word: string) {
    word == "true" || word == "false" || word == "null"
  }

  lemma LiteralsArePlain(word: string)
    requires IsLiteral(word)
    ensures forall k :: 0 <= k < |word| ==> IsPlain(word[k]) && !IsSpace(word[k]) && !IsPunct(word[k])
    ensures word[0] == (if word == "true" then 't' else if word == "false" then 'f' else 'n')
  {
  }

  lemma FirstLiteral(t: string, word: string)
    requires IsLiteral(word) && Begins(t, word)
    ensures t != "" && FirstLexeme(t) == Some(([Literal(word)], |word|))
    ensures forall k :: 0 <= k < |word| ==> IsPlain(t[k])
  {
    LiteralsArePlain(word);
    assert forall k :: 0 <= k < |word| ==> t[k] == t[..|word|][k];
  }

  /** What is written for a token is that token, lifted, whatever is written behind it. */
  ghost predicate Carried(t: string, ls: seq<Lexeme>, n: nat) {
    && 0 < n <= |t|
    && exists out ::
         && Quote(t) == out + Quote(t[n..])
         && out != ""
         && FirstLexeme(out + Quote(t[n..])) == Some((LiftLexemes(ls), |out|))
  }

  lemma CarriedBy(t: string, ls: seq<Lexeme>, n: nat, out: string, more: string)
    requires 0 < n <= |t| && out != "" && more == Quote(t[n..]) && Quote(t) == out + more
    requires FirstLexeme(out + more) == Some((LiftLexemes(ls), |out|))
    ensures Carried(t, ls, n)
  {
  }

  lemma LiftOne(l: Lexeme)
    ensures LiftLexemes([l]) == [LiftLexeme(l)] && LiftLexemes([]) == []
  {
  }

  lemma SpaceOrPunctRead(u: string, c: char, more: string)
    requires u == [c] + more && (IsSpace(c) || IsPunct(c))
    ensures FirstLexeme(u) == Some((if IsSpace(c) then [] else [Punct(c)], 1))
  {
  }

  lemma SpaceOrPunctCarried(t: string)
    requires t != "" && (IsSpace(t[0]) || IsPunct(t[0]))
    ensures FirstLexeme(t).Some? && Carried(t, FirstLexeme(t).value.0, FirstLexeme(t).value.1)
  {
    PlainChunk(t);
    LiftOne(Punct(t[0]));
    SpaceOrPunctRead([t[0]] + Quote(t[1..]), t[0], Quote(t[1..]));
    CarriedBy(t, FirstLexeme(t).value.0, 1, [t[0]], Quote(t[1..]));
  }

  lemma LiteralCarried(t: string, word: string)
    requires IsLiteral(word) && Begins(t, word)
    ensures Carried(t, [Literal(word)], |word|)
  {
    FirstLiteral(t, word);
    PlainIsCopied(t, |word|);
    var u := word + Quote(t[|word|..]);
    assert u[..|word|] == word && t[..|word|] == word;
    FirstLiteral(u, word);
    LiftOne(Literal(word));
    CarriedBy(t, [Literal(word)], |word|, word, Quote(t[|word|..]));
  }

  lemma StringCarried(t: string)
    requires t != "" && t[0] == '"' && FirstLexeme(t).Some?
    ensures Carried(t, FirstLexeme(t).value.0, FirstLexeme(t).value.1)
  {
    var n := FirstLexeme(t).value.1;
    StringScanned(t, 1);
    var out := t[..n];
    var u := out + Quote(t[n..]);
    assert u[..n] == out;
    SameBody(t, u, n, 1);
    LiftOne(FirstLexeme(t).value.0[0]);
    CarriedBy(t, FirstLexeme(t).value.0, n, out, Quote(t[n..]));
  }

  lemma QuotedCarried(t: string, token: string, more: string)
    requires IsInteger(token)
    ensures FirstLexeme("\"" + token + "\"" + more) == Some(([Str(Codes(token))], |token| + 2))
  {
    var u := "\"" + token + "\"" + more;
    IntegerChars(token);
    QuotedBody(u, token, 1);
    assert Codes(token)[0..] == Codes(token);
  }

  lemma NumberRead(u: string, t: string, n: nat)
    requires 0 < n <= |t| && n <= |u| && u[..n] == t[..n] && RunEnd(t, 0) == n && StartsNumber(t[0]) && IsNumber(t[..n])
    requires n < |u| ==> !InNumber(u[n])
    ensures FirstLexeme(u) == Some(([Num(t[..n])], n))
  {
    RunEndIs(t, u, n, 0);
    assert u[0] == u[..n][0] && t[0] == t[..n][0];
  }

  /** What the rewriter writes for a number of the grammar. */
  lemma NumberWritten(t: string, n: nat, token: string)
    requires t != "" && StartsNumber(t[0]) && n == RunEnd(t, 0) && token == t[..n] && IsNumber(token)
    ensures n > 0 && Quote(t) == (if ShouldQuote(token) then "\"" + token + "\"" else token) + Quote(t[n..])
    ensures Quote(t[n..]) == "" || !InNumber(Quote(t[n..])[0])
  {
    NumberScanned(t, n);
    NumberChunkIs(t, n, token, n == WholeEnd(t, 0));
    if n < |t| {
      FirstOfQuote(t[n..]);
    }
  }

  lemma UnsafeCarried(t: string, n: nat, token: string, more: string)
    requires 0 < n <= |t| && more == Quote(t[n..]) && ShouldQuote(token) && Quote(t) == "\"" + token + "\"" + more
    ensures Carried(t, [Num(token)], n)
  {
    LiftOne(Num(token));
    QuotedCarried(t, token, more);
    CarriedBy(t, [Num(token)], n, "\"" + token + "\"", more);
  }

  lemma SafeCarried(t: string, n: nat, token: string, more: string)
    requires 0 < n <= |t| && more == Quote(t[n..]) && !ShouldQuote(token) && Quote(t) == token + more
    requires StartsNumber(t[0]) && n == RunEnd(t, 0) && token == t[..n] && IsNumber(token) && (more == "" || !InNumber(more[0]))
    ensures Carried(t, [Num(token)], n)
  {
    LiftOne(Num(token));
    assert (token + more)[..n] == token;
    NumberRead(token + more, t, n);
    CarriedBy(t, [Num(token)], n, token, more);
  }

  lemma NumberCarried(t: string)
    requires t != "" && StartsNumber(t[0]) && FirstLexeme(t).Some?
    ensures Carried(t, FirstLexeme(t).value.0, FirstLexeme(t).value.1)
  {
    var n := RunEnd(t, 0);
    var token, more := t[..n], Quote(t[n..]);
    NumberWritten(t, n, token);
    if ShouldQuote(token) {
      UnsafeCarried(t, n, token, more);
    } else {
      SafeCarried(t, n, token, more);
    }
  }

  lemma LexemeCarried(t: string)
    requires t != "" && FirstLexeme(t).Some?
    ensures Carried(t, FirstLexeme(t).value.0, FirstLexeme(t).value.1)
  {
    if IsSpace(t[0]) || IsPunct(t[0]) {
      SpaceOrPunctCarried(t);
    } else if t[0] == '"' {
      StringCarried(t);
    } else if StartsNumber(t[0]) {
      NumberCarried(t);
    } else if Begins(t, "true") {
      LiteralCarried(t, "true");
    } else if Begins(t, "false") {
      LiteralCarried(t, "false");
    } else {
      LiteralCarried(t, "null");
    }
  }

  lemma LexemesOfParts(u: string, out: string, more: string, ls: seq<Lexeme>)
    requires u == out + more && out != "" && FirstLexeme(u) == Some((ls, |out|))
    ensures Tokens(u) == (if Tokens(more).None? then None else Some(ls + Tokens(more).value))
  {
    assert u[|out|..] == more;
  }

  lemma LiftConcat(a: seq<Lexeme>, b: seq<Lexeme>)
    ensures LiftLexemes(a + b) == LiftLexemes(a) + LiftLexemes(b)
  {
  }

  /** The lexemes of the rewritten text are those of the text, the unsafe integers among them as strings. */
  lemma {:induction false} TokensLifted(t: string)
    requires Tokens(t).Some?
    ensures Tokens(Quote(t)) == Some(LiftLexemes(Tokens(t).value))
    decreases |t|
  {
    if t == "" {
      assert LiftLexemes([]) == [];
    } else {
      var (ls, n) := FirstLexeme(t).value;
      LexemeCarried(t);
      var out :| Quote(t) == out + Quote(t[n..]) && out != "" && FirstLexeme(out + Quote(t[n..])) == Some((LiftLexemes(ls), |out|));
      TokensLifted(t[n..]);
      LexemesOfParts(Quote(t), out, Quote(t[n..]), LiftLexemes(ls));
      LiftConcat(ls, Tokens(t[n..]).value);
    }
  }
}

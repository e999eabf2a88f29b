/** On every text, well formed or not, rewriting twice is rewriting once. */
module JsonIdempotence {
  import opened JsonRewriter

  /** `u` continues like `t` up to position n, and then with the same character, a quote, or not at all. */
  predicate SameUpTo(t: string, u: string, n: nat) {
    && n <= |t| && n <= |u| && u[..n] == t[..n]
    && (|u| == n || u[n] == '"' || (n < |t| && u[n] == t[n]))
  }

  lemma SameChar(t: string, u: string, n: nat, k: nat)
    requires SameUpTo(t, u, n) && k < n
    ensures u[k] == t[k]
  {
    assert u[..n][k] == t[..n][k];
  }

  /** Digits end where they ended, if that is before or at n. */
  lemma {:induction false} SameDigitsEnd(t: string, u: string, n: nat, i: nat)
    requires SameUpTo(t, u, n) && i <= n && DigitsEnd(t, i) <= n
    ensures DigitsEnd(u, i) == DigitsEnd(t, i)
    decreases n - i
  {
    if i < n {
      SameChar(t, u, n, i);
      if IsDigit(t[i]) {
        SameDigitsEnd(t, u, n, i + 1);
      }
    }
  }

  lemma SameWholeEnd(t: string, u: string, n: nat)
    requires SameUpTo(t, u, n) && 0 < n && WholeEnd(t, 0) <= n
    ensures WholeEnd(u, 0) == WholeEnd(t, 0)
  {
    SameChar(t, u, n, 0);
    SameDigitsEnd(t, u, n, if t[0] == '-' then 1 else 0);
  }

  lemma SameFractionEnd(t: string, u: string, n: nat, i: nat)
    requires SameUpTo(t, u, n) && i <= n && FractionEnd(t, i) <= n
    ensures FractionEnd(u, i) == FractionEnd(t, i)
  {
    if i < n {
      SameChar(t, u, n, i);
      if t[i] == '.' {
        SameDigitsEnd(t, u, n, i + 1);
      }
    }
  }

  lemma SameExponentEnd(t: string, u: string, n: nat, i: nat)
    requires SameUpTo(t, u, n) && i <= n && ExponentEnd(t, i) <= n
    ensures ExponentEnd(u, i) == ExponentEnd(t, i)
  {
    if i < n {
      SameChar(t, u, n, i);
      if t[i] == 'e' || t[i] == 'E' {
        if i + 1 < n {
          SameChar(t, u, n, i + 1);
        }
        SameDigitsEnd(t, u, n, if i + 1 < |t| && (t[i + 1] == '+' || t[i + 1] == '-') then i + 2 else i + 1);
      }
    }
  }

  lemma SameNumber(t: string, u: string, n: nat)
    requires t != "" && StartsNumber(t[0]) && NumberEnd(t, 0) == n && SameUpTo(t, u, n)
    ensures u != "" && u[0] == t[0] && NumberEnd(u, 0) == n && WholeEnd(u, 0) == WholeEnd(t, 0)
  {
    SameChar(t, u, n, 0);
    SameWholeEnd(t, u, n);
    SameFractionEnd(t, u, n, WholeEnd(t, 0));
    SameExponentEnd(t, u, n, FractionEnd(t, WholeEnd(t, 0)));
  }

  /** A string that ends before the text does is read the same whatever follows. */
  lemma {:induction false} SameString(t: string, u: string, n: nat, i: nat, escaped: bool)
    requires n <= |t| && n <= |u| && u[..n] == t[..n] && i <= n && StringEnd(t, i, escaped) == n
    requires n == |t| ==> u == t
    ensures StringEnd(u, i, escaped) == n
    decreases n - i
  {
    if n < |t| {
      StringStepEnds(t, i, escaped);
      assert u[..n][i] == t[..n][i];
      if !(t[i] == '"' && !escaped) {
        SameString(t, u, n, i + 1, !escaped && t[i] == '\\');
      }
    }
  }

  lemma {:induction false} StringStepEnds(t: string, i: nat, escaped: bool)
    requires i <= |t| && StringEnd(t, i, escaped) < |t|
    ensures i < StringEnd(t, i, escaped)
    decreases |t| - i
  {
    if i < |t| && !(t[i] == '"' && !escaped) {
      StringStepEnds(t, i + 1, !escaped && t[i] == '\\');
    }
  }

  /** A quoted integer is one string. */
  lemma {:induction false} QuotedEnds(u: string, n: nat, i: nat)
    requires 1 <= i <= n < |u| && u[n] == '"' && (forall k :: i <= k < n ==> StartsNumber(u[k]))
    ensures StringEnd(u, i, false) == n + 1
    decreases n - i
  {
    if i < n {
      QuotedEnds(u, n, i + 1);
    }
  }

  lemma IntegerChars(token: string)
    requires IsInteger(token)
    ensures forall k :: 0 <= k < |token| ==> StartsNumber(token[k])
  {
    forall k | 0 <= k < |token|
      ensures StartsNumber(token[k])
    {
      if token[0] == '-' {
        if k > 0 { assert token[k] == token[1..][k - 1]; }
      }
    }
  }

  /** What a rewritten text begins with. */
  lemma FirstOfQuote(t: string)
    requires t != ""
    ensures Quote(t) != "" && (Quote(t)[0] == t[0] || Quote(t)[0] == '"')
  {
  }

  lemma QuotedChunk(token: string, more: string)
    requires IsInteger(token)
    ensures FirstChunk("\"" + token + "\"" + more) == Chunk(|token| + 2, "\"" + token + "\"")
  {
    var u := "\"" + token + "\"" + more;
    IntegerChars(token);
    assert forall k :: 1 <= k < |token| + 1 ==> u[k] == token[k - 1];
    QuotedEnds(u, |token| + 1, 1);
    assert u[..|token| + 2] == "\"" + token + "\"";
  }

  /** Whatever the rewritten rest is, the chunk is found again and left alone. */
  lemma ChunkAgain(t: string)
    requires t != ""
    ensures var c := FirstChunk(t);
            FirstChunk(c.output + Quote(t[c.length..])) == Chunk(|c.output|, c.output)
  {
    var c := FirstChunk(t);
    var rest := t[c.length..];
    var u := c.output + Quote(rest);
    if c.length < |t| {
      FirstOfQuote(rest);
    }
    if t[0] == '"' {
      if c.length == |t| {
        assert u == t;
      }
      SameString(t, u, c.length, 1, false);
    } else if StartsNumber(t[0]) {
      NumberAgain(t, Quote(rest));
    }
  }

  lemma NumberAgain(t: string, more: string)
    requires t != "" && StartsNumber(t[0])
    requires more == "" || more[0] == '"' || (NumberEnd(t, 0) < |t| && more[0] == t[NumberEnd(t, 0)])
    ensures var c := FirstChunk(t); FirstChunk(c.output + more) == Chunk(|c.output|, c.output)
  {
    var n := NumberEnd(t, 0);
    var token, integral := t[..n], n == WholeEnd(t, 0);
    if integral && ShouldQuote(token) {
      QuotedChunk(token, more);
    } else {
      var u := token + more;
      SameNumber(t, u, n);
      assert u[..n] == token;
      NumberChunkIs(u, n, token, integral);
    }
  }

  lemma {:induction false} QuoteTwice(t: string)
    ensures Quote(Quote(t)) == Quote(t)
    decreases |t|
  {
    if t != "" {
      var c := FirstChunk(t);
      var rest := Quote(t[c.length..]);
      QuoteTwice(t[c.length..]);
      ChunkAgain(t);
      assert (c.output + rest)[|c.output|..] == rest;
    }
  }
}

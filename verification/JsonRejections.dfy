/** Which rejections the rewriting loses: exactly those of long integers with leading zeros or in the place of a name. */
module JsonRejections {
  import opened Common
  import opened JsonRewriter
  import opened JsonIdempotence
  import opened JsonGrammar
  import opened JsonMeaning
  import opened JsonLossless

  /** The first chunk of the text is put into quotes. */
  predicate Quotes(t: string) {
    t != "" && StartsNumber(t[0]) && NumberEnd(t, 0) == WholeEnd(t, 0) && ShouldQuote(t[..NumberEnd(t, 0)])
  }

  predicate LeadsWithZero(token: string) {
    Unsigned(token) != "" && Unsigned(token)[0] == '0'
  }

  /** After blanks comes a colon. */
  predicate ColonNext(t: string) {
    t != "" && (t[0] == ':' || (IsSpace(t[0]) && ColonNext(t[1..])))
  }

  /** No chunk that is put into quotes begins with a zero after its sign, and none stands before a colon. */
  predicate Unmasked(t: string) {
    t != "" ==>
      var n := FirstChunk(t).length;
      (Quotes(t) ==> !LeadsWithZero(t[..n]) && !ColonNext(t[n..])) && Unmasked(t[n..])
  }

  // ---- neighbours among the lexemes of a JSON text ----

  /** Two values never stand side by side, and a number never before a colon. */
  predicate PairOk(a: Lexeme, b: Lexeme) {
    !(!a.Punct? && !b.Punct?) && !(a.Num? && b == Punct(':'))
  }

  predicate Neighbourly(ts: seq<Lexeme>) {
    forall i :: 0 <= i < |ts| - 1 ==> PairOk(ts[i], ts[i + 1])
  }

  lemma Join(a: seq<Lexeme>, p: Lexeme, b: seq<Lexeme>)
    requires Neighbourly(a) && Neighbourly(b) && p.Punct? && (p != Punct(':') || (a != [] && !a[|a| - 1].Num?))
    ensures Neighbourly(a + [p] + b)
  {
    var ts := a + [p] + b;
    forall i | 0 <= i < |ts| - 1
      ensures PairOk(ts[i], ts[i + 1])
    {
      if i < |a| - 1 {
        assert PairOk(a[i], a[i + 1]);
      } else if i > |a| {
        assert PairOk(b[i - |a| - 1], b[i - |a|]);
      }
    }
  }

  /** What was parsed, as the part of the lexemes before the rest. */
  predicate Consumed(ts: seq<Lexeme>, rest: seq<Lexeme>) {
    |rest| <= |ts| && ts[|ts| - |rest|..] == rest && Neighbourly(ts[..|ts| - |rest|])
  }

  lemma JoinConsumed(a: seq<Lexeme>, p: Lexeme, ts: seq<Lexeme>, rest: seq<Lexeme>, whole: seq<Lexeme>)
    requires Neighbourly(a) && p.Punct? && (p != Punct(':') || (a != [] && !a[|a| - 1].Num?)) && Consumed(ts, rest)
    requires whole == a + [p] + ts
    ensures Consumed(whole, rest)
  {
    var part := ts[..|ts| - |rest|];
    Join(a, p, part);
    assert whole[..|whole| - |rest|] == a + [p] + part;
  }

  lemma {:induction false} ValueConsumed(ts: seq<Lexeme>)
    requires ParseValue(ts).Some?
    ensures Consumed(ts, ParseValue(ts).value.1)
    decreases |ts|, 0
  {
    var rest := ParseValue(ts).value.1;
    if ts[0].Punct? {
      assert ts == [] + [ts[0]] + ts[1..];
      if |ts| > 1 && rest == ts[2..] && (ts[1] == Punct(']') || ts[1] == Punct('}')) {
        assert ts[..2] == [ts[0], ts[1]];
      } else if ts[0] == Punct('[') {
        ItemsConsumed(ts[1..]);
        JoinConsumed([], ts[0], ts[1..], rest, ts);
      } else {
        MembersConsumed(ts[1..]);
        JoinConsumed([], ts[0], ts[1..], rest, ts);
      }
    }
  }

  lemma {:induction false} ItemsConsumed(ts: seq<Lexeme>)
    requires ParseItems(ts).Some?
    ensures Consumed(ts, ParseItems(ts).value.1)
    decreases |ts|, 1
  {
    ValueConsumed(ts);
    AfterValue(ts, ParseValue(ts).value.1, ParseItems(ts).value.1, Punct(']'));
    if ParseValue(ts).value.1[0] != Punct(']') {
      ItemsConsumed(ParseValue(ts).value.1[1..]);
      AfterComma(ts, ParseValue(ts).value.1, ParseItems(ts).value.1);
    }
  }

  lemma AfterValue(ts: seq<Lexeme>, rest: seq<Lexeme>, end: seq<Lexeme>, close: Lexeme)
    requires Consumed(ts, rest) && rest != [] && close.Punct? && close != Punct(':')
    ensures rest[0] == close && end == rest[1..] ==> Consumed(ts, end)
  {
    var a := ts[..|ts| - |rest|];
    assert ts == a + [rest[0]] + rest[1..];
    if rest[0] == close && end == rest[1..] {
      assert end[..|end| - |end|] == [];
      JoinConsumed(a, close, rest[1..], end, ts);
    }
  }

  lemma AfterComma(ts: seq<Lexeme>, rest: seq<Lexeme>, end: seq<Lexeme>)
    requires Consumed(ts, rest) && rest != [] && rest[0] == Punct(',') && Consumed(rest[1..], end)
    ensures Consumed(ts, end)
  {
    var a := ts[..|ts| - |rest|];
    assert ts == a + [rest[0]] + rest[1..];
    JoinConsumed(a, rest[0], rest[1..], end, ts);
  }

  lemma {:induction false} MembersConsumed(ts: seq<Lexeme>)
    requires ParseMembers(ts).Some?
    ensures Consumed(ts, ParseMembers(ts).value.1)
    decreases |ts|, 1
  {
    var inner, end := ts[2..], ParseMembers(ts).value.1;
    ValueConsumed(inner);
    var rest := ParseValue(inner).value.1;
    AfterValue(inner, rest, end, Punct('}'));
    if rest[0] != Punct('}') {
      MembersConsumed(rest[1..]);
      AfterComma(inner, rest, end);
    }
    assert ts == [ts[0]] + [ts[1]] + inner;
    JoinConsumed([ts[0]], ts[1], inner, end, ts);
  }

  /** The lexemes of a JSON text are neighbourly. */
  lemma ParsedIsNeighbourly(t: string)
    requires Parse(t).Some?
    ensures Neighbourly(Tokens(t).value)
  {
    var ts := Tokens(t).value;
    ValueConsumed(ts);
    assert ts[..|ts|] == ts;
  }

  // ---- trees: nothing is gained but names ----

  /** No integer that is put into quotes stands before a colon. */
  predicate NoBareNames(ts: seq<Lexeme>) {
    forall i :: 0 <= i < |ts| - 1 ==> !BareName(ts[i], ts[i + 1])
  }

  predicate BareName(a: Lexeme, b: Lexeme) {
    a.Num? && ShouldQuote(a.token) && b == Punct(':')
  }

  lemma NoBareNamesAfter(ts: seq<Lexeme>, k: nat)
    requires k <= |ts| && NoBareNames(ts)
    ensures NoBareNames(ts[k..])
  {
    forall i | 0 <= i < |ts[k..]| - 1
      ensures !BareName(ts[k..][i], ts[k..][i + 1])
    {
      assert !BareName(ts[k + i], ts[k + i + 1]);
    }
  }

  lemma {:induction false} ValueUnlifted(ts: seq<Lexeme>)
    requires ParseValue(LiftLexemes(ts)).Some? && NoBareNames(ts)
    ensures ParseValue(ts).Some?
    decreases |ts|, 0
  {
    LiftTail(ts, 1);
    NoBareNamesAfter(ts, 1);
    if ts[0] == Punct('[') && !(|ts| > 1 && ts[1] == Punct(']')) {
      ItemsUnlifted(ts[1..]);
    } else if ts[0] == Punct('{') && !(|ts| > 1 && ts[1] == Punct('}')) {
      MembersUnlifted(ts[1..]);
    }
  }

  /** The rest behind a value of the lifted lexemes. */
  lemma RestUnlifted(ts: seq<Lexeme>)
    requires ParseValue(ts).Some? && NoBareNames(ts)
    ensures var rest := ParseValue(ts).value.1;
            && ParseValue(LiftLexemes(ts)).Some? && ParseValue(LiftLexemes(ts)).value.1 == LiftLexemes(rest)
            && (rest != [] ==> NoBareNames(rest[1..]) && LiftLexemes(rest[1..]) == LiftLexemes(rest)[1..])
  {
    var rest := ParseValue(ts).value.1;
    ValueLifted(ts);
    ValueConsumed(ts);
    NoBareNamesAfter(ts, |ts| - |rest|);
    if rest != [] {
      NoBareNamesAfter(rest, 1);
      LiftTail(rest, 1);
    }
  }

  lemma {:induction false} ItemsUnlifted(ts: seq<Lexeme>)
    requires ParseItems(LiftLexemes(ts)).Some? && NoBareNames(ts)
    ensures ParseItems(ts).Some?
    decreases |ts|, 1
  {
    ValueUnlifted(ts);
    RestUnlifted(ts);
    var rest := ParseValue(ts).value.1;
    if rest[0] == Punct(',') {
      ItemsUnlifted(rest[1..]);
    }
  }

  lemma {:induction false} MembersUnlifted(ts: seq<Lexeme>)
    requires ParseMembers(LiftLexemes(ts)).Some? && NoBareNames(ts)
    ensures ParseMembers(ts).Some?
    decreases |ts|, 1
  {
    LiftTail(ts, 2);
    NoBareNamesAfter(ts, 2);
    assert !BareName(ts[0], ts[1]);
    ValueUnlifted(ts[2..]);
    RestUnlifted(ts[2..]);
    var rest := ParseValue(ts[2..]).value.1;
    if rest[0] == Punct(',') {
      MembersUnlifted(rest[1..]);
    }
  }

  // ---- chunks and lexemes ----

  lemma {:induction false} PlainUnmasked(t: string, n: nat)
    requires n <= |t| && forall k :: 0 <= k < n ==> IsPlain(t[k])
    ensures Unmasked(t) <==> Unmasked(t[n..])
  {
    if n == 0 {
      assert t[0..] == t;
    } else {
      assert t[1..][n - 1..] == t[n..];
      PlainUnmasked(t[1..], n - 1);
    }
  }

  lemma IntegerIsNumber(s: string)
    requires IsInteger(s) && !LeadsWithZero(s)
    ensures IsNumber(s)
  {
    var sign := if s[0] == '-' then 1 else 0;
    assert s[sign..|s|] == Unsigned(s) && s[|s|..|s|] == "" && s[|s|..] == "";
    assert NumberParts(s, |s|, |s|);
  }

  lemma NumberUnmasked(t: string)
    requires t != "" && StartsNumber(t[0]) && FirstLexeme(t).Some?
    ensures var n := FirstLexeme(t).value.1; var token := t[..n];
            && FirstLexeme(t).value.0 == [Num(token)]
            && (Unmasked(t) <==> (ShouldQuote(token) ==> !ColonNext(t[n..])) && Unmasked(t[n..]))
  {
    var n := RunEnd(t, 0);
    var token := t[..n];
    NumberScanned(t, n);
    NumberChunkIs(t, n, token, n == WholeEnd(t, 0));
    if ShouldQuote(token) && LeadsWithZero(token) {
      NotAnIntIsNoNumber(token);
    }
  }

  /** A lexeme is read in whole chunks. */
  lemma LexemeUnmasked(t: string)
    requires t != "" && FirstLexeme(t).Some?
    ensures var (ls, n) := FirstLexeme(t).value;
            Unmasked(t) <==> (ls != [] && ls[0].Num? && ShouldQuote(ls[0].token) ==> !ColonNext(t[n..])) && Unmasked(t[n..])
  {
    var (ls, n) := FirstLexeme(t).value;
    if IsSpace(t[0]) || IsPunct(t[0]) {
      PlainUnmasked(t, 1);
    } else if t[0] == '"' {
      StringScanned(t, 1);
    } else if StartsNumber(t[0]) {
      NumberUnmasked(t);
    } else {
      var word := if Begins(t, "true") then "true" else if Begins(t, "false") then "false" else "null";
      FirstLiteral(t, word);
      PlainUnmasked(t, n);
    }
  }

  /** In a text that has lexemes a colon comes next exactly when it is the first of them. */
  lemma {:induction false} ColonFirst(t: string)
    requires Tokens(t).Some?
    ensures ColonNext(t) <==> Tokens(t).value != [] && Tokens(t).value[0] == Punct(':')
    decreases |t|
  {
    if t != "" && IsSpace(t[0]) {
      ColonFirst(t[1..]);
    }
  }

  lemma {:induction false} TokensUnmasked(t: string)
    requires Tokens(t).Some? && NoBareNames(Tokens(t).value)
    ensures Unmasked(t)
    decreases |t|
  {
    if t != "" {
      var (ls, n) := FirstLexeme(t).value;
      var rest := Tokens(t[n..]).value;
      LexemeUnmasked(t);
      assert (ls + rest)[|ls|..] == rest;
      NoBareNamesAfter(ls + rest, |ls|);
      TokensUnmasked(t[n..]);
      if ls != [] && ls[0].Num? && ShouldQuote(ls[0].token) {
        ColonFirst(t[n..]);
        OneLexeme(t);
        assert rest != [] ==> !BareName((ls + rest)[0], (ls + rest)[1]);
      }
    }
  }

  lemma OneLexeme(t: string)
    requires t != "" && FirstLexeme(t).Some?
    ensures |FirstLexeme(t).value.0| <= 1
  {
  }

  // ---- from the lexemes of the rewritten text back to those of the text ----

  /** Where no value comes first, the text begins with a blank or punctuation. */
  lemma NoValueFirst(t: string)
    requires t != "" && Tokens(t).Some? && (Tokens(t).value == [] || Tokens(t).value[0].Punct?)
    ensures IsSpace(t[0]) || IsPunct(t[0])
  {
  }

  lemma MoreBehindValue(u: string, out: string, more: string, value: Lexeme)
    requires u == out + more && out != "" && more != "" && !value.Punct? && FirstLexeme(u) == Some(([value], |out|))
    requires Tokens(u).Some? && Neighbourly(Tokens(u).value)
    ensures IsSpace(more[0]) || IsPunct(more[0])
  {
    LexemesOfParts(u, out, more, [value]);
    hide Tokens, FirstLexeme, IsSpace, IsPunct;
    var rest := Tokens(more).value;
    assert rest != [] ==> PairOk(([value] + rest)[0], ([value] + rest)[1]);
    NoValueFirst(more);
  }

  /** Behind a value, the rewritten rest begins with a blank or punctuation, and so does the rest. */
  lemma BehindValue(t: string, n: nat, out: string, value: Lexeme)
    requires n <= |t| && Quote(t) == out + Quote(t[n..]) && out != "" && !value.Punct?
    requires FirstLexeme(Quote(t)) == Some(([value], |out|))
    requires Tokens(Quote(t)).Some? && Neighbourly(Tokens(Quote(t)).value)
    ensures n < |t| ==> Quote(t[n..])[0] == t[n] && (IsSpace(t[n]) || IsPunct(t[n])) && !InNumber(t[n])
  {
    hide Tokens, FirstLexeme, Quote, Neighbourly;
    if n < |t| {
      FirstOfQuote(t[n..]);
      MoreBehindValue(Quote(t), out, Quote(t[n..]), value);
    }
  }

  lemma {:induction false} RunEndAt(t: string, i: nat, n: nat)
    requires i <= n <= |t| && (forall k :: i <= k < n ==> InNumber(t[k])) && (n < |t| ==> !InNumber(t[n]))
    ensures RunEnd(t, i) == n
    decreases n - i
  {
    if i < n {
      RunEndAt(t, i + 1, n);
    }
  }

  /** What is written for a chunk that is put into quotes. */
  lemma QuotedFirst(t: string, n: nat, token: string)
    requires Quotes(t) && n == NumberEnd(t, 0) && token == t[..n]
    ensures Quote(t) == "\"" + token + "\"" + Quote(t[n..]) && FirstLexeme(Quote(t)) == Some(([Str(Codes(token))], |token| + 2))
  {
    NumberChunkIs(t, n, token, true);
    QuotedCarried(t, token, Quote(t[n..]));
  }

  lemma QuotedBack(t: string)
    requires Quotes(t) && !LeadsWithZero(t[..NumberEnd(t, 0)])
    requires Tokens(Quote(t)).Some? && Neighbourly(Tokens(Quote(t)).value)
    ensures FirstLexeme(t).Some?
  {
    var n := NumberEnd(t, 0);
    var token := t[..n];
    QuotedFirst(t, n, token);
    hide Tokens, Quote, Neighbourly, IsNumber, LeadsWithZero, Codes;
    BehindValue(t, n, "\"" + token + "\"", Str(Codes(token)));
    IntegerChars(token);
    assert forall k :: 0 <= k < n ==> t[k] == token[k];
    RunEndAt(t, 0, n);
    IntegerIsNumber(token);
  }

  /** The number at the start of the rewritten text is the chunk that was copied. */
  lemma SameRun(t: string, u: string, n: nat)
    requires t != "" && StartsNumber(t[0]) && n == NumberEnd(t, 0) && SameUpTo(t, u, n) && FirstLexeme(u).Some?
    ensures RunEnd(u, 0) == n && IsNumber(u[..n]) && FirstLexeme(u) == Some(([Num(u[..n])], n)) && 0 < n
  {
    SameNumber(t, u, n);
    NumberScanned(u, RunEnd(u, 0));
  }

  lemma CopiedChunk(t: string)
    requires t != "" && StartsNumber(t[0]) && !Quotes(t)
    ensures var n := NumberEnd(t, 0);
            Quote(t) == t[..n] + Quote(t[n..]) && Quote(t)[..n] == t[..n] && SameUpTo(t, Quote(t), n)
  {
    var n := NumberEnd(t, 0);
    NumberChunkIs(t, n, t[..n], n == WholeEnd(t, 0));
    assert Quote(t) == t[..n] + Quote(t[n..]);
    if n < |t| {
      FirstOfQuote(t[n..]);
    }
  }

  lemma CopiedNumberBack(t: string)
    requires t != "" && StartsNumber(t[0]) && !Quotes(t)
    requires Tokens(Quote(t)).Some? && Neighbourly(Tokens(Quote(t)).value)
    ensures FirstLexeme(t).Some?
  {
    var n, u := NumberEnd(t, 0), Quote(t);
    CopiedChunk(t);
    hide Quote, Neighbourly, Quotes, NumberEnd, IsNumber;
    SameRun(t, u, n);
    BehindValue(t, n, t[..n], Num(u[..n]));
    RunEndIs(u, t, n, 0);
  }

  lemma StringBack(t: string)
    requires t != "" && t[0] == '"' && FirstLexeme(Quote(t)).Some?
    ensures FirstLexeme(t).Some?
  {
    var n := StringEnd(t, 1, false);
    var u := Quote(t);
    assert u == t[..n] + Quote(t[n..]) && u[..n] == t[..n];
    if n == |t| {
      assert u == t;
    }
    SameString(t, u, n, 1, false);
    assert u[0] == u[..n][0];
    StringScanned(u, 1);
    SameBody(u, t, n, 1);
  }

  lemma {:induction false} WordBack(t: string, word: string, k: nat)
    requires IsLiteral(word) && Begins(Quote(t), word) && k <= |word| && k <= |t| && t[..k] == word[..k]
    ensures Begins(t, word)
    decreases |word| - k
  {
    if k < |word| {
      LiteralsArePlain(word);
      assert forall i :: 0 <= i < k ==> t[i] == t[..k][i] && word[i] == word[..k][i];
      PlainIsCopied(t, k);
      assert Quote(t)[k] == Quote(t)[..|word|][k] == word[k];
      assert t[k..] != "";
      FirstOfQuote(t[k..]);
      assert t[k] == word[k];
      assert t[..k + 1] == word[..k + 1];
      WordBack(t, word, k + 1);
    } else {
      assert word[..k] == word;
    }
  }

  lemma PlainBack(t: string)
    requires t != "" && IsPlain(t[0]) && FirstLexeme(Quote(t)).Some?
    ensures FirstLexeme(t).Some?
  {
    PlainChunk(t);
    if !IsSpace(t[0]) && !IsPunct(t[0]) {
      var word := if Begins(Quote(t), "true") then "true" else if Begins(Quote(t), "false") then "false" else "null";
      assert t[..0] == word[..0];
      WordBack(t, word, 0);
      FirstLiteral(t, word);
    }
  }

  lemma LexemeBack(t: string)
    requires t != "" && Tokens(Quote(t)).Some? && Neighbourly(Tokens(Quote(t)).value) && Unmasked(t)
    ensures FirstLexeme(t).Some?
  {
    FirstOfQuote(t);
    if t[0] == '"' {
      StringBack(t);
    } else if !StartsNumber(t[0]) {
      PlainBack(t);
    } else if Quotes(t) {
      NumberChunkIs(t, NumberEnd(t, 0), t[..NumberEnd(t, 0)], true);
      QuotedBack(t);
    } else {
      CopiedNumberBack(t);
    }
  }

  lemma NeighbourlyAfter(a: seq<Lexeme>, b: seq<Lexeme>)
    requires Neighbourly(a + b)
    ensures Neighbourly(b)
  {
    forall i | 0 <= i < |b| - 1
      ensures PairOk(b[i], b[i + 1])
    {
      assert PairOk((a + b)[|a| + i], (a + b)[|a| + i + 1]);
    }
  }

  lemma {:induction false} TokensBack(t: string)
    requires Tokens(Quote(t)).Some? && Neighbourly(Tokens(Quote(t)).value) && Unmasked(t)
    ensures Tokens(t).Some? && NoBareNames(Tokens(t).value)
    decreases |t|
  {
    if t != "" {
      LexemeBack(t);
      var (ls, n) := FirstLexeme(t).value;
      var more := Quote(t[n..]);
      LexemeCarried(t);
      var out :| Quote(t) == out + more && out != "" && FirstLexeme(out + more) == Some((LiftLexemes(ls), |out|));
      LexemesOfParts(Quote(t), out, more, LiftLexemes(ls));
      NeighbourlyAfter(LiftLexemes(ls), Tokens(more).value);
      LexemeUnmasked(t);
      TokensBack(t[n..]);
      OneLexeme(t);
      ColonFirst(t[n..]);
      BareNamesOneMore(ls, Tokens(t[n..]).value);
    }
  }

  lemma BareNamesOneMore(ls: seq<Lexeme>, rest: seq<Lexeme>)
    requires |ls| <= 1 && NoBareNames(rest)
    requires ls != [] && rest != [] ==> !BareName(ls[0], rest[0])
    ensures NoBareNames(ls + rest)
  {
    forall i | 0 <= i < |ls + rest| - 1
      ensures !BareName((ls + rest)[i], (ls + rest)[i + 1])
    {
      if i >= |ls| {
        assert !BareName(rest[i - |ls|], rest[i - |ls| + 1]);
      }
    }
  }

  lemma NeighbourlyHasNoBareNames(ts: seq<Lexeme>)
    requires Neighbourly(ts)
    ensures NoBareNames(ts)
  {
    forall i | 0 <= i < |ts| - 1
      ensures !BareName(ts[i], ts[i + 1])
    {
      assert PairOk(ts[i], ts[i + 1]);
    }
  }

  // ---- main result ----

  lemma ParsedIsUnmasked(t: string)
    requires Parse(t).Some?
    ensures Unmasked(t)
  {
    ParsedIsNeighbourly(t);
    NeighbourlyHasNoBareNames(Tokens(t).value);
    TokensUnmasked(t);
  }

  lemma UnmaskedIsParsed(t: string)
    requires Parse(Quote(t)).Some? && Unmasked(t)
    ensures Parse(t).Some?
  {
    ParsedIsNeighbourly(Quote(t));
    TokensBack(t);
    TokensLifted(t);
    var ts := Tokens(t).value;
    ValueUnlifted(ts);
    ValueLifted(ts);
    assert ParseValue(ts).value.1 == [];
  }

  /**
   A text is JSON if and only if its rewriting is JSON and no integer that was put into quotes has a
   leading zero or stands before a colon.
   */
  lemma RewritingAcceptsTheSameIffUnmasked(t: string)
    ensures Parse(t).Some? <==> Parse(Quote(t)).Some? && Unmasked(t)
  {
    if Parse(t).Some? {
      MeaningIsLifted(t);
      ParsedIsUnmasked(t);
    }
    if Parse(Quote(t)).Some? && Unmasked(t) {
      UnmaskedIsParsed(t);
    }
  }
}

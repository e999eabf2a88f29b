/** Parsing a rewritten text: what is kept, and what is no longer noticed. */
module JsonLossless {
  import opened Common
  import opened JsonRewriter
  import opened JsonIdempotence
  import opened JsonGrammar
  import opened JsonMeaning

  lemma LiftTail(ts: seq<Lexeme>, i: nat)
    requires i <= |ts|
    ensures LiftLexemes(ts[i..]) == LiftLexemes(ts)[i..]
  {
  }

  lemma LiftFirst(v: Value, items: seq<Value>)
    ensures LiftItems([v] + items) == [Lift(v)] + LiftItems(items)
    ensures LiftItems([v]) == [Lift(v)]
  {
    assert [v][1..] == [];
    assert ([v] + items)[1..] == items;
  }

  lemma LiftFirstMember(m: Member, members: seq<Member>)
    ensures LiftMembers([m] + members) == [Member(m.name, Lift(m.value))] + LiftMembers(members)
    ensures LiftMembers([m]) == [Member(m.name, Lift(m.value))]
  {
    assert [m][1..] == [];
    assert ([m] + members)[1..] == members;
  }

  lemma {:induction false} ValueLifted(ts: seq<Lexeme>)
    requires ParseValue(ts).Some?
    ensures var (v, rest) := ParseValue(ts).value; ParseValue(LiftLexemes(ts)) == Some((Lift(v), LiftLexemes(rest)))
    decreases |ts|, 0
  {
    var us := LiftLexemes(ts);
    LiftTail(ts, 1);
    if ts[0] == Punct('[') || ts[0] == Punct('{') {
      if |ts| > 1 && (ts[1] == Punct(']') || ts[1] == Punct('}')) {
        LiftTail(ts, 2);
      }
      if ts[0] == Punct('[') && !(|ts| > 1 && ts[1] == Punct(']')) {
        ItemsLifted(ts[1..]);
        ItemsStart(ts[1..]);
      }
      if ts[0] == Punct('{') && !(|ts| > 1 && ts[1] == Punct('}')) {
        MembersLifted(ts[1..]);
      }
    }
  }

  lemma ItemsStart(ts: seq<Lexeme>)
    requires ParseItems(ts).Some?
    ensures ts != [] && ts[0] != Punct(']') && LiftLexeme(ts[0]) != Punct(']')
  {
  }

  lemma {:induction false} ItemsLifted(ts: seq<Lexeme>)
    requires ParseItems(ts).Some?
    ensures var (items, rest) := ParseItems(ts).value; ParseItems(LiftLexemes(ts)) == Some((LiftItems(items), LiftLexemes(rest)))
    decreases |ts|, 1
  {
    ValueLifted(ts);
    var (v, rest) := ParseValue(ts).value;
    LiftTail(rest, 1);
    LiftFirst(v, []);
    if rest[0] != Punct(']') {
      ItemsLifted(rest[1..]);
      LiftFirst(v, ParseItems(rest[1..]).value.0);
    }
  }

  lemma {:induction false} MembersLifted(ts: seq<Lexeme>)
    requires ParseMembers(ts).Some?
    ensures var (members, rest) := ParseMembers(ts).value; ParseMembers(LiftLexemes(ts)) == Some((LiftMembers(members), LiftLexemes(rest)))
    decreases |ts|, 1
  {
    LiftTail(ts, 2);
    ValueLifted(ts[2..]);
    var (v, rest) := ParseValue(ts[2..]).value;
    var m := Member(ts[0].content, v);
    LiftTail(rest, 1);
    LiftFirstMember(m, []);
    if rest[0] != Punct('}') {
      MembersLifted(rest[1..]);
      LiftFirstMember(m, ParseMembers(rest[1..]).value.0);
    }
  }

  /** For every JSON text, parsing the rewritten text gives the same tree with the unsafe integers as strings of their digits. */
  lemma MeaningIsLifted(t: string)
    requires Parse(t).Some?
    ensures Parse(Quote(t)) == Some(Lift(Parse(t).value))
  {
    TokensLifted(t);
    ValueLifted(Tokens(t).value);
    assert LiftLexemes([]) == [];
  }

  /** What Lift does, in terms of the integers themselves: nothing at all to a tree without unsafe ones. */
  predicate AllSafe(v: Value)
    decreases v, 1
  {
    match v
    case Number(token) => IsInteger(token) ==> Magnitude(token) <= MAX_SAFE_INTEGER
    case Array(items) => ItemsSafe(items)
    case Object(members) => MembersSafe(members)
    case _ => true
  }

  predicate ItemsSafe(items: seq<Value>)
    decreases items, 0
  {
    items != [] ==> AllSafe(items[0]) && ItemsSafe(items[1..])
  }

  predicate MembersSafe(members: seq<Member>)
    decreases members, 0
  {
    members != [] ==> AllSafe(members[0].value) && MembersSafe(members[1..])
  }

  lemma {:induction false} SafeTreesStay(v: Value)
    ensures AllSafe(v) <==> Lift(v) == v
    ensures AllSafe(Lift(v))
    decreases v, 1
  {
    match v
    case Number(token) => ShortcutAgreesWithValue(token);
    case Array(items) => SafeItemsStay(items);
    case Object(members) => SafeMembersStay(members);
    case _ =>
  }

  lemma {:induction false} SafeItemsStay(items: seq<Value>)
    ensures ItemsSafe(items) <==> LiftItems(items) == items
    ensures ItemsSafe(LiftItems(items))
    decreases items, 0
  {
    if items != [] {
      SafeTreesStay(items[0]);
      SafeItemsStay(items[1..]);
      assert items == [items[0]] + items[1..];
      assert LiftItems(items)[1..] == LiftItems(items[1..]);
    }
  }

  lemma {:induction false} SafeMembersStay(members: seq<Member>)
    ensures MembersSafe(members) <==> LiftMembers(members) == members
    ensures MembersSafe(LiftMembers(members))
    decreases members, 0
  {
    if members != [] {
      SafeTreesStay(members[0].value);
      SafeMembersStay(members[1..]);
      assert members == [members[0]] + members[1..];
      assert LiftMembers(members)[1..] == LiftMembers(members[1..]);
    }
  }

  // ---- malformed texts that become well formed ----

  lemma TokensOfOne(u: string, ls: seq<Lexeme>)
    requires u != "" && FirstLexeme(u) == Some((ls, |u|))
    ensures Tokens(u) == Some(ls)
  {
    assert u[|u|..] == "";
    assert ls + [] == ls;
  }

  lemma NotAnIntIsNoNumber(s: string)
    requires IsInteger(s) && Unsigned(s)[0] == '0' && |Unsigned(s)| > 1
    ensures !IsNumber(s)
  {
    forall i: nat, f: nat
      ensures !NumberParts(s, i, f)
    {
      var sign := if s[0] == '-' then 1 else 0;
      if sign < i <= f <= |s| {
        assert s[sign..i][0] == '0';
        if i < |s| {
          assert IsDigit(Unsigned(s)[i - sign]) && s[i] == Unsigned(s)[i - sign];
          if i < f { assert s[i..f][0] == s[i]; } else { assert s[f..][0] == s[i]; }
        }
      }
    }
  }

  lemma {:induction false} AllInNumber(s: string, i: nat)
    requires i <= |s| && forall k :: 0 <= k < |s| ==> InNumber(s[k])
    ensures RunEnd(s, i) == |s|
    decreases |s| - i
  {
    if i < |s| {
      AllInNumber(s, i + 1);
    }
  }

  /** Nothing but an unsafe integer, rewritten and parsed. */
  lemma QuotedWhole(t: string)
    requires ShouldQuote(t)
    ensures Quote(t) == "\"" + t + "\"" && Parse(Quote(t)) == Some(Text(Codes(t)))
  {
    hide Parse, Codes;
    WholeIsAll(t);
    assert t[..|t|] == t && t[|t|..] == "";
    NumberChunkIs(t, |t|, t, true);
    QuotedParses(t);
  }

  lemma QuotedParses(t: string)
    requires IsInteger(t)
    ensures Parse("\"" + t + "\"") == Some(Text(Codes(t)))
  {
    var u := "\"" + t + "\"";
    QuotedCarried(t, t, "");
    assert u + "" == u;
    TokensOfOne(u, [Str(Codes(t))]);
    assert [Str(Codes(t))][1..] == [];
  }

  /**
   An integer of at least sixteen digits with a leading zero is no JSON text, but its rewriting is
   one: the error that parsing would have raised is lost.
   */
  lemma LeadingZerosPass(t: string)
    requires ShouldQuote(t) && Unsigned(t)[0] == '0'
    ensures Parse(t) == None && Parse(Quote(t)) == Some(Text(Codes(t)))
  {
    NotAnIntIsNoNumber(t);
    IntegerChars(t);
    AllInNumber(t, 0);
    assert t[..|t|] == t;
    WholeIsAll(t);
    QuotedWhole(t);
  }

  lemma WholeIsAll(t: string)
    requires IsInteger(t)
    ensures WholeEnd(t, 0) == |t| && NumberEnd(t, 0) == |t| && t != "" && StartsNumber(t[0])
  {
    var sign := if t[0] == '-' then 1 else 0;
    assert t[sign..|t|] == Unsigned(t);
    DigitsEndIs(t, sign, |t|);
  }

  lemma NumberChars(token: string)
    requires IsNumber(token)
    ensures token != "" && StartsNumber(token[0]) && forall k :: 0 <= k < |token| ==> InNumber(token[k])
  {
    var i: nat, f: nat :| NumberParts(token, i, f);
    var sign := if token != "" && token[0] == '-' then 1 else 0;
    assert token[sign..i] != "" && token[sign] == token[sign..i][0];
    forall k | 0 <= k < |token|
      ensures InNumber(token[k])
    {
      if sign <= k < i {
        assert token[k] == token[sign..i][k - sign];
      } else if i <= k < f {
        assert token[k] == token[i..f][k - i];
        if k > i { assert token[i..f][1..][k - i - 1] == token[k]; }
      } else if k >= f {
        ExponentChars(token[f..], k - f);
        assert token[k] == token[f..][k - f];
      }
    }
  }

  lemma ExponentChars(x: string, k: nat)
    requires IsExponent(x) && k < |x|
    ensures InNumber(x[k])
  {
    if k == 1 {
      if AllDigits(x[1..]) { assert x[1..][0] == x[1]; }
    } else if k > 1 {
      if AllDigits(x[1..]) { assert x[1..][k - 1] == x[k]; } else { assert x[2..][k - 2] == x[k]; }
    }
  }

  /** A number of the grammar in front of something that cannot continue it. */
  lemma NumberBefore(token: string, more: string)
    requires IsNumber(token) && (more == "" || !InNumber(more[0]))
    ensures FirstLexeme(token + more) == Some(([Num(token)], |token|))
  {
    NumberChars(token);
    AllInNumber(token, 0);
    assert token[..|token|] == token && (token + more)[..|token|] == token;
    NumberRead(token + more, token, |token|);
  }

  lemma ZeroIsNumber()
    ensures IsNumber("0")
  {
    assert "0"[0..1] == "0" && "0"[1..1] == "" && "0"[1..] == "";
    assert NumberParts("0", 1, 1);
  }

  /** The lexemes of `:0}`. */
  lemma ColonZero()
    ensures Tokens(":0}") == Some([Punct(':'), Num("0"), Punct('}')])
  {
    ZeroIsNumber();
    SpaceOrPunctRead("}", '}', "");
    TokensOfOne("}", [Punct('}')]);
    assert "0" + "}" == "0}" && ":" + "0}" == ":0}";
    NumberBefore("0", "}");
    LexemesOfParts("0}", "0", "}", [Num("0")]);
    SpaceOrPunctRead(":0}", ':', "0}");
    LexemesOfParts(":0}", ":", "0}", [Punct(':')]);
    assert [Punct(':')] + ([Num("0")] + [Punct('}')]) == [Punct(':'), Num("0"), Punct('}')];
  }

  /** The lexemes of `{number:0}`. */
  lemma NumberAsName(token: string)
    requires IsNumber(token)
    ensures Tokens("{" + token + ":0}") == Some([Punct('{'), Num(token), Punct(':'), Num("0"), Punct('}')])
  {
    ColonZero();
    var tail := token + ":0}";
    assert ":0}"[0] == ':';
    NumberBefore(token, ":0}");
    NumberChars(token);
    LexemesOfParts(tail, token, ":0}", [Num(token)]);
    assert "{" + token + ":0}" == "{" + tail;
    SpaceOrPunctRead("{" + tail, '{', tail);
    LexemesOfParts("{" + tail, "{", tail, [Punct('{')]);
    assert [Punct('{')] + ([Num(token)] + [Punct(':'), Num("0"), Punct('}')]) == [Punct('{'), Num(token), Punct(':'), Num("0"), Punct('}')];
  }

  lemma NumberNameFails(ts: seq<Lexeme>, token: string)
    requires |ts| > 1 && ts[0] == Punct('{') && ts[1] == Num(token)
    ensures ParseValue(ts) == None
  {
    assert ts[1..][0] == Num(token);
  }

  lemma NameParses(name: seq<nat>, us: seq<Lexeme>)
    requires us == [Punct('{'), Str(name), Punct(':'), Num("0"), Punct('}')]
    ensures ParseValue(us) == Some((Object([Member(name, Number("0"))]), []))
  {
    var inner, last := us[1..], [Punct('}')];
    assert inner[2..] == [Num("0"), Punct('}')];
    assert [Num("0"), Punct('}')][1..] == last && last[1..] == [];
    assert ParseValue(inner[2..]) == Some((Number("0"), last));
    assert ParseMembers(inner) == Some(([Member(name, Number("0"))], []));
  }

  /**
   An object whose member name is an unsafe integer without quotes is no JSON text, but its
   rewriting is one.
   */
  lemma BareNamesPass(token: string)
    requires IsNumber(token) && ShouldQuote(token)
    ensures var t := "{" + token + ":0}";
            Parse(t) == None && Parse(Quote(t)) == Some(Object([Member(Codes(token), Number("0"))]))
  {
    var t := "{" + token + ":0}";
    var ts := [Punct('{'), Num(token), Punct(':'), Num("0"), Punct('}')];
    NumberAsName(token);
    NumberNameFails(ts, token);
    TokensLifted(t);
    var us := [Punct('{'), Str(Codes(token)), Punct(':'), Num("0"), Punct('}')];
    assert LiftLexemes(ts) == us by {
      assert Unsigned("0") == "0";
    }
    NameParses(Codes(token), us);
  }
}

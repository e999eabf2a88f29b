/** JSON texts as sections 2 to 7 of RFC 8259 define them: tokens, then trees. */
module JsonGrammar {
  import opened Common
  import opened JsonRewriter

  datatype Lexeme = Punct(c: char) | Literal(word: string) | Num(token: string) | Str(content: seq<nat>)

  /** A string is the sequence of its code values; a number keeps its digits; an object keeps its members in order. */
  datatype Value =
    | Word(word: string)
    | Number(token: string)
    | Text(content: seq<nat>)
    | Array(items: seq<Value>)
    | Object(members: seq<Member>)

  datatype Member = Member(name: seq<nat>, value: Value)

  // ---- tokens ----

  predicate IsSpace(c: char) {
    c == ' ' || c == '\t' || c == '\n' || c == '\r'
  }

  predicate IsPunct(c: char) {
    c == '[' || c == ']' || c == '{' || c == '}' || c == ':' || c == ','
  }

  /** Characters that can stand in a number. */
  predicate InNumber(c: char) {
    IsDigit(c) || c == '-' || c == '+' || c == '.' || c == 'e' || c == 'E'
  }

  function RunEnd(t: string, i: nat): (end: nat)
    requires i <= |t|
    ensures i <= end <= |t| && (forall k :: i <= k < end ==> InNumber(t[k])) && (end < |t| ==> !InNumber(t[end]))
    decreases |t| - i
  {
    if i < |t| && InNumber(t[i]) then RunEnd(t, i + 1) else i
  }

  /** int: zero, or digits that do not begin with zero. */
  predicate IsInt(s: string) {
    s != "" && AllDigits(s) && (s[0] == '0' ==> |s| == 1)
  }

  predicate IsFraction(s: string) {
    s == "" || (s[0] == '.' && |s| > 1 && AllDigits(s[1..]))
  }

  predicate IsExponent(s: string) {
    s == "" || (|s| > 1 && (s[0] == 'e' || s[0] == 'E')
                && (AllDigits(s[1..]) || ((s[1] == '+' || s[1] == '-') && |s| > 2 && AllDigits(s[2..]))))
  }

  /** number = [ minus ] int [ frac ] [ exp ] */
  ghost predicate IsNumber(s: string) {
    exists i, f :: NumberParts(s, i, f)
  }

  predicate NumberParts(s: string, i: nat, f: nat) {
    var sign := if s != "" && s[0] == '-' then 1 else 0;
    sign <= i <= f <= |s| && IsInt(s[sign..i]) && IsFraction(s[i..f]) && IsExponent(s[f..])
  }

  function HexDigit(c: char): Option<nat> {
    if '0' <= c <= '9' then Some(c as int - '0' as int)
    else if 'a' <= c <= 'f' then Some(c as int - 'a' as int + 10)
    else if 'A' <= c <= 'F' then Some(c as int - 'A' as int + 10)
    else None
  }

  /** What a two-character escape stands for. */
  function Escape(c: char): Option<nat> {
    if c == '"' || c == '\\' || c == '/' then Some(c as int)
    else if c == 'b' then Some(8)
    else if c == 'f' then Some(12)
    else if c == 'n' then Some(10)
    else if c == 'r' then Some(13)
    else if c == 't' then Some(9)
    else None
  }

  /** The contents of a string from inside it, and where it ends; None for a malformed one. */
  function StringBody(t: string, i: nat): (r: Option<(seq<nat>, nat)>)
    requires i <= |t|
    ensures r.Some? ==> i < r.value.1 <= |t|
    decreases |t| - i
  {
    if i == |t| || t[i] < ' ' then None
    else if t[i] == '"' then Some(([], i + 1))
    else if t[i] != '\\' then Grown(t[i] as int, StringBody(t, i + 1))
    else if i + 1 == |t| then None
    else if t[i + 1] == 'u' then
      if i + 6 <= |t| && HexDigit(t[i + 2]).Some? && HexDigit(t[i + 3]).Some? && HexDigit(t[i + 4]).Some? && HexDigit(t[i + 5]).Some?
      then Grown(4096 * HexDigit(t[i + 2]).value + 256 * HexDigit(t[i + 3]).value + 16 * HexDigit(t[i + 4]).value + HexDigit(t[i + 5]).value,
                 StringBody(t, i + 6))
      else None
    else if Escape(t[i + 1]).Some? then Grown(Escape(t[i + 1]).value, StringBody(t, i + 2))
    else None
  }

  function Grown(first: nat, rest: Option<(seq<nat>, nat)>): Option<(seq<nat>, nat)> {
    if rest.None? then None else Some(([first] + rest.value.0, rest.value.1))
  }

  predicate Begins(t: string, word: string) {
    |word| <= |t| && t[..|word|] == word
  }

  /** The token at the start of a text, or none for a space, and its length; None where no JSON text goes on so. */
  ghost function FirstLexeme(t: string): (r: Option<(seq<Lexeme>, nat)>)
    requires t != ""
    ensures r.Some? ==> 0 < r.value.1 <= |t|
  {
    if IsSpace(t[0]) then Some(([], 1))
    else if IsPunct(t[0]) then Some(([Punct(t[0])], 1))
    else if t[0] == '"' then
      var body := StringBody(t, 1);
      if body.Some? then Some(([Str(body.value.0)], body.value.1)) else None
    else if StartsNumber(t[0]) then
      var n := RunEnd(t, 0);
      if IsNumber(t[..n]) then Some(([Num(t[..n])], n)) else None
    else if Begins(t, "true") then Some(([Literal("true")], 4))
    else if Begins(t, "false") then Some(([Literal("false")], 5))
    else if Begins(t, "null") then Some(([Literal("null")], 4))
    else None
  }

  ghost function Tokens(t: string): Option<seq<Lexeme>> {
    if t == "" then Some([])
    else
      var first := FirstLexeme(t);
      if first.None? then None
      else
        var rest := Tokens(t[first.value.1..]);
        if rest.None? then None else Some(first.value.0 + rest.value)
  }

  // ---- trees ----

  function ParseValue(ts: seq<Lexeme>): (r: Option<(Value, seq<Lexeme>)>)
    ensures r.Some? ==> |r.value.1| < |ts|
    decreases |ts|, 0
  {
    if ts == [] then None
    else match ts[0]
      case Literal(word) => Some((Word(word), ts[1..]))
      case Num(token) => Some((Number(token), ts[1..]))
      case Str(content) => Some((Text(content), ts[1..]))
      case Punct(c) =>
        if c == '[' then
          if |ts| > 1 && ts[1] == Punct(']') then Some((Array([]), ts[2..]))
          else
            var items := ParseItems(ts[1..]);
            if items.None? then None else Some((Array(items.value.0), items.value.1))
        else if c == '{' then
          if |ts| > 1 && ts[1] == Punct('}') then Some((Object([]), ts[2..]))
          else
            var members := ParseMembers(ts[1..]);
            if members.None? then None else Some((Object(members.value.0), members.value.1))
        else None
  }

  /** value *( "," value ) "]" */
  function ParseItems(ts: seq<Lexeme>): (r: Option<(seq<Value>, seq<Lexeme>)>)
    ensures r.Some? ==> |r.value.1| < |ts|
    decreases |ts|, 1
  {
    var first := ParseValue(ts);
    if first.None? || first.value.1 == [] then None
    else
      var (v, rest) := first.value;
      if rest[0] == Punct(']') then Some(([v], rest[1..]))
      else if rest[0] == Punct(',') then
        var more := ParseItems(rest[1..]);
        if more.None? then None else Some(([v] + more.value.0, more.value.1))
      else None
  }

  /** string ":" value *( "," string ":" value ) "}" */
  function ParseMembers(ts: seq<Lexeme>): (r: Option<(seq<Member>, seq<Lexeme>)>)
    ensures r.Some? ==> |r.value.1| < |ts|
    decreases |ts|, 1
  {
    if |ts| < 2 || !ts[0].Str? || ts[1] != Punct(':') then None
    else
      var first := ParseValue(ts[2..]);
      if first.None? || first.value.1 == [] then None
      else
        var (v, rest) := first.value;
        var member := Member(ts[0].content, v);
        if rest[0] == Punct('}') then Some(([member], rest[1..]))
        else if rest[0] == Punct(',') then
          var more := ParseMembers(rest[1..]);
          if more.None? then None else Some(([member] + more.value.0, more.value.1))
        else None
  }

  /** JSON.parse: the tree of a text, None when it is malformed. */
  ghost function Parse(t: string): Option<Value> {
    var ts := Tokens(t);
    if ts.None? then None
    else
      var v := ParseValue(ts.value);
      if v.Some? && v.value.1 == [] then Some(v.value.0) else None
  }
}

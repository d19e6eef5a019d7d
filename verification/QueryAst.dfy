/** The search language's syntax tree, and what a value's raw text stands for. */
module QueryAst {
  import opened Text
  import opened QueryLexer

  datatype OrExpr = OrExpr(left: AndExpr, right: seq<AndExpr>)

  datatype AndExpr = AndExpr(left: Unary, right: seq<Unary>)

  datatype Unary = SubExpr(sub: OrExpr) | Leaf(field: Field)

  datatype Field = Field(name: string, raw: string)

  /** The text with each escaping backslash dropped and the character after it kept. */
  function Unescaped(s: string, escaped: bool): (r: string)
    ensures |r| <= |s|
  {
    if s == "" then ""
    else if !escaped && s[0] == '\\' then Unescaped(s[1..], true)
    else [s[0]] + Unescaped(s[1..], false)
  }

  /** Whether an unescaped star occurs. */
  predicate BareStar(s: string, escaped: bool) {
    s != "" &&
    if escaped then BareStar(s[1..], false)
    else if s[0] == '\\' then BareStar(s[1..], true)
    else s[0] == '*' || BareStar(s[1..], false)
  }

  method Unescape(s: string) returns (result: string)
    ensures result == Unescaped(s, false)
  {
    result := "";
    var escaped := false;
    for i := 0 to |s|
      invariant result + Unescaped(s[i..], escaped) == Unescaped(s, false)
    {
      assert s[i..][1..] == s[i + 1..];
      if escaped {
        result := result + [s[i]];
        escaped := false;
      } else if s[i] == '\\' {
        escaped := true;
      } else {
        result := result + [s[i]];
      }
    }
  }

  method HasWildcard(raw: string) returns (found: bool)
    ensures found == BareStar(raw, false)
  {
    var escaped := false;
    for i := 0 to |raw|
      invariant BareStar(raw[i..], escaped) == BareStar(raw, false)
    {
      assert raw[i..][1..] == raw[i + 1..];
      if escaped {
        escaped := false;
      } else if raw[i] == '\\' {
        escaped := true;
      } else if raw[i] == '*' {
        return true;
      }
    }
    return false;
  }

  /** The kinds a braced value is made of. */
  predicate IsValueKind(k: Kind) {
    k == Ident || k == Number || k == Wildcard || k == ValueChar || k == Escaped
  }

  predicate AllValueTokens(ts: seq<Token>) {
    forall i :: 0 <= i < |ts| ==> IsValueKind(ts[i].kind)
  }

  /** The texts a braced value can hold, read one character at a time. A hyphen is only ever
      part of an identifier, so what may come next depends on whether one is being read. */
  predicate IsValueText(s: string, inIdent: bool) {
    s != "" ==>
      if s[0] == '\\' then |s| >= 2 && s[1] in ESCAPABLE && IsValueText(s[2..], false)
      else if In(s[0], IdentStart) then IsValueText(s[1..], true)
      else if In(s[0], Digit) || s[0] == '.' then IsValueText(s[1..], inIdent)
      else if s[0] == '-' then inIdent && IsValueText(s[1..], true)
      else s[0] in "*@:+" && IsValueText(s[1..], false)
  }

  lemma {:induction false} ValueTextWeaken(s: string)
    requires IsValueText(s, false)
    ensures IsValueText(s, true)
  {
    if s != "" && (In(s[0], Digit) || s[0] == '.') {
      ValueTextWeaken(s[1..]);
    }
  }

  lemma {:induction false} ValueTextAppend(a: string, b: string, inIdent: bool)
    requires IsValueText(a, inIdent) && IsValueText(b, false)
    ensures IsValueText(a + b, inIdent)
  {
    if a == "" {
      assert a + b == b;
      ValueTextWeaken(b);
    } else {
      assert (a + b)[1..] == a[1..] + b;
      if a[0] == '\\' {
        assert (a + b)[2..] == a[2..] + b;
        ValueTextAppend(a[2..], b, false);
      } else if In(a[0], IdentStart) || a[0] == '-' {
        ValueTextAppend(a[1..], b, true);
      } else if In(a[0], Digit) || a[0] == '.' {
        ValueTextAppend(a[1..], b, inIdent);
      } else {
        ValueTextAppend(a[1..], b, false);
      }
    }
  }

  /** An identifier's tail, or a number's digits, can be read or skipped as a whole. */
  lemma {:induction false} ValueTextSkip(s: string, n: nat, inIdent: bool)
    requires n <= |s|
    requires forall i :: 0 <= i < n ==> In(s[i], if inIdent then IdentPart else Digit)
    ensures IsValueText(s, inIdent) <==> IsValueText(s[n..], inIdent)
  {
    if n > 0 {
      assert s[1..][n - 1..] == s[n..];
      ValueTextSkip(s[1..], n - 1, inIdent);
    }
  }

  lemma TokenIsValueText(t: Token)
    requires WellFormedToken(t) && IsValueKind(t.kind)
    ensures IsValueText(t.text, false)
  {
    if t.kind == Ident {
      ValueTextSkip(t.text[1..], |t.text| - 1, true);
    } else if t.kind == Number {
      ValueTextSkip(t.text, |t.text|, false);
    }
  }

  lemma {:induction false} TokensAreValueText(ts: seq<Token>)
    requires AllValueTokens(ts)
    requires Lexed(ts)
    ensures IsValueText(TextOf(ts), false)
  {
    if ts != [] {
      TokenIsValueText(ts[0]);
      TokensAreValueText(ts[1..]);
      ValueTextAppend(ts[0].text, TextOf(ts[1..]), false);
    }
  }

  lemma ValueTextFirstToken(s: string)
    requires s != "" && IsValueText(s, false)
    ensures Classify(s).Some? && IsValueKind(Classify(s).value.kind)
    ensures IsValueText(s[|Classify(s).value.text|..], false)
  {
    if In(s[0], IdentStart) {
      var n := Span(IdentPart, s[1..]);
      ValueTextSkip(s[1..], n, true);
      assert s[1..][n..] == s[1 + n..];
    } else if In(s[0], Digit) {
      ValueTextSkip(s, Span(Digit, s), false);
    }
  }

  /** Value tokens glued together lex again to value tokens spelling the same text, though
      not always cut in the same places. */
  lemma {:induction false} ValueTextLexes(s: string)
    requires IsValueText(s, false)
    ensures Lex(s).Some? && AllValueTokens(Lex(s).value) && TextOf(Lex(s).value) == s
  {
    if s != "" {
      ValueTextFirstToken(s);
      ValueTextLexes(s[|Classify(s).value.text|..]);
      LexStep(s, Classify(s).value);
    }
    LexIsFaithful(s);
  }
}

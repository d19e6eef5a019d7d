/** The search language's lexer: an ordered table of rules, the first match winning. */
module QueryLexer {
  import opened Text

  datatype Kind =
    | Whitespace | Escaped | Ident | Number | Wildcard | ValueChar | At | Colon
    | LBrace | RBrace | LParen | RParen | Or | And

  datatype Token = Token(kind: Kind, text: string)

  const RULES: seq<Kind> := [
    Whitespace, Escaped, Ident, Number, Wildcard, ValueChar, At, Colon,
    LBrace, RBrace, LParen, RParen, Or, And]

  const ESCAPABLE: string := "{}|&()@:\\*"

  /** How much of the start of s the rule's pattern matches, 0 when it does not match. */
  function MatchLength(rule: Kind, s: string): (n: nat)
    ensures n <= |s|
  {
    if s == "" then 0
    else
      match rule
      case Whitespace => Span(Blank, s)
      case Escaped => if |s| >= 2 && s[0] == '\\' && s[1] in ESCAPABLE then 2 else 0
      case Ident => if In(s[0], IdentStart) then 1 + Span(IdentPart, s[1..]) else 0
      case Number => Span(Digit, s)
      case Wildcard => if s[0] == '*' then 1 else 0
      case ValueChar => if s[0] in "@.:+" then 1 else 0
      case At => if s[0] == '@' then 1 else 0
      case Colon => if s[0] == ':' then 1 else 0
      case LBrace => if s[0] == '{' then 1 else 0
      case RBrace => if s[0] == '}' then 1 else 0
      case LParen => if s[0] == '(' then 1 else 0
      case RParen => if s[0] == ')' then 1 else 0
      case Or => if s[0] == '|' then 1 else 0
      case And => if s[0] == '&' then 1 else 0
  }

  /** The token the first matching rule cuts off s. */
  function FirstMatch(rules: seq<Kind>, s: string): (r: Option<Token>)
    ensures r.Some? ==> r.value.text != "" && r.value.text <= s
  {
    if rules == [] then None
    else
      var n := MatchLength(rules[0], s);
      if n > 0 then Some(Token(rules[0], s[..n])) else FirstMatch(rules[1..], s)
  }

  /** The lexer as participle runs it, over the rule table. */
  function LexByTable(s: string): (r: Option<seq<Token>>) {
    if s == "" then Some([])
    else
      match FirstMatch(RULES, s)
      case None => None
      case Some(t) => Prepend([t], LexByTable(s[|t.text|..]))
  }

  /** The same choice made by looking at the first character alone. */
  function Classify(s: string): (r: Option<Token>)
    requires s != ""
    ensures r.Some? ==> r.value.text != "" && r.value.text <= s
  {
    var c := s[0];
    if In(c, Blank) then Some(Token(Whitespace, s[..Span(Blank, s)]))
    else if c == '\\' then
      if |s| >= 2 && s[1] in ESCAPABLE then Some(Token(Escaped, s[..2])) else None
    else if In(c, IdentStart) then Some(Token(Ident, s[..1 + Span(IdentPart, s[1..])]))
    else if In(c, Digit) then Some(Token(Number, s[..Span(Digit, s)]))
    else if c == '*' then Some(Token(Wildcard, [c]))
    else if c in "@.:+" then Some(Token(ValueChar, [c]))
    else if c == '{' then Some(Token(LBrace, [c]))
    else if c == '}' then Some(Token(RBrace, [c]))
    else if c == '(' then Some(Token(LParen, [c]))
    else if c == ')' then Some(Token(RParen, [c]))
    else if c == '|' then Some(Token(Or, [c]))
    else if c == '&' then Some(Token(And, [c]))
    else None
  }

  lemma {:induction false} FirstMatchSkips(rules: seq<Kind>, k: nat, s: string)
    requires k <= |rules|
    requires forall j :: 0 <= j < k ==> MatchLength(rules[j], s) == 0
    ensures FirstMatch(rules, s) == FirstMatch(rules[k..], s)
  {
    if k > 0 {
      FirstMatchSkips(rules[1..], k - 1, s);
      assert rules[1..][k - 1..] == rules[k..];
    }
  }

  /** The rule, as a place in the table, that Classify names; |RULES| for none. */
  function Place(s: string): (k: nat)
    requires s != ""
    ensures k <= |RULES|
  {
    var c := s[0];
    if In(c, Blank) then 0
    else if c == '\\' then if |s| >= 2 && s[1] in ESCAPABLE then 1 else 14
    else if In(c, IdentStart) then 2
    else if In(c, Digit) then 3
    else if c == '*' then 4
    else if c in "@.:+" then 5
    else if c == '{' then 8
    else if c == '}' then 9
    else if c == '(' then 10
    else if c == ')' then 11
    else if c == '|' then 12
    else if c == '&' then 13
    else 14
  }

  lemma EarlierRulesMiss(s: string, j: nat)
    requires s != "" && j < Place(s)
    ensures MatchLength(RULES[j], s) == 0
  {}

  lemma PlacedRuleMatches(s: string)
    requires s != ""
    ensures var k := Place(s);
      Classify(s) ==
        if k == |RULES| then None
        else Some(Token(RULES[k], s[..MatchLength(RULES[k], s)]))
    ensures Place(s) < |RULES| ==> MatchLength(RULES[Place(s)], s) > 0
  {
    hide Span;
    assert s[..1] == [s[0]];
  }

  lemma FirstMatchIsClassify(s: string)
    requires s != ""
    ensures FirstMatch(RULES, s) == Classify(s)
  {
    var k := Place(s);
    forall j | 0 <= j < k
      ensures MatchLength(RULES[j], s) == 0
    {
      EarlierRulesMiss(s, j);
    }
    FirstMatchSkips(RULES, k, s);
    PlacedRuleMatches(s);
  }

  function Lex(s: string): (r: Option<seq<Token>>) {
    if s == "" then Some([])
    else
      match Classify(s)
      case None => None
      case Some(t) => Prepend([t], Lex(s[|t.text|..]))
  }

  function Prepend(ts: seq<Token>, r: Option<seq<Token>>): Option<seq<Token>> {
    match r
    case None => None
    case Some(rest) => Some(ts + rest)
  }

  /** Choosing by the first character alone is choosing the first rule that matches. */
  lemma {:induction false} LexIsLexByTable(s: string)
    ensures Lex(s) == LexByTable(s)
  {
    if s != "" {
      FirstMatchIsClassify(s);
      if Classify(s).Some? {
        LexIsLexByTable(s[|Classify(s).value.text|..]);
      }
    }
  }

  /** Lexing and what tokens say about their text. */

  predicate WellFormedToken(t: Token) {
    && t.text != ""
    && match t.kind
       case Whitespace => forall i :: 0 <= i < |t.text| ==> In(t.text[i], Blank)
       case Escaped => |t.text| == 2 && t.text[0] == '\\' && t.text[1] in ESCAPABLE
       case Ident => IsIdent(t.text)
       case Number => forall i :: 0 <= i < |t.text| ==> In(t.text[i], Digit)
       case Wildcard => t.text == "*"
       case ValueChar => t.text == "@" || t.text == "." || t.text == ":" || t.text == "+"
       case At => false
       case Colon => false
       case LBrace => t.text == "{"
       case RBrace => t.text == "}"
       case LParen => t.text == "("
       case RParen => t.text == ")"
       case Or => t.text == "|"
       case And => t.text == "&"
  }

  predicate IsIdent(s: string) {
    s != "" && In(s[0], IdentStart) && forall i :: 1 <= i < |s| ==> In(s[i], IdentPart)
  }

  function TextOf(ts: seq<Token>): string {
    if ts == [] then "" else ts[0].text + TextOf(ts[1..])
  }

  lemma ClassifyIsWellFormed(s: string)
    requires s != "" && Classify(s).Some?
    ensures WellFormedToken(Classify(s).value)
  {
    var t := Classify(s).value;
    if t.kind == Ident {
      forall i | 1 <= i < |t.text|
        ensures In(t.text[i], IdentPart)
      {
        assert t.text[i] == s[1..][i - 1];
      }
    }
  }

  predicate Lexed(ts: seq<Token>) {
    forall i :: 0 <= i < |ts| ==> WellFormedToken(ts[i])
  }

  /** Nothing of the input is lost, and every token's text fits its rule. */
  lemma {:induction false} LexIsFaithful(s: string)
    requires Lex(s).Some?
    ensures TextOf(Lex(s).value) == s
    ensures Lexed(Lex(s).value)
  {
    if s != "" {
      var t := Classify(s).value;
      ClassifyIsWellFormed(s);
      LexStep(s, t);
      hide Classify, Lex, WellFormedToken, TextOf;
      var rest := s[|t.text|..];
      LexIsFaithful(rest);
      TokenThen(t, Lex(rest).value);
      assert s == t.text + rest;
    }
  }

  lemma TokenThen(t: Token, ts: seq<Token>)
    ensures TextOf([t] + ts) == t.text + TextOf(ts)
    ensures WellFormedToken(t) && Lexed(ts) ==> Lexed([t] + ts)
  {
    hide WellFormedToken;
    assert ([t] + ts)[1..] == ts;
  }

  /** The rules At and Colon never fire: ValueChar stands before them and takes their
      characters, so the grammar can only match these by their text. */
  lemma ShadowedRules(s: string, i: nat)
    requires Lex(s).Some? && i < |Lex(s).value|
    ensures var t := Lex(s).value[i];
      && t.kind != At && t.kind != Colon
      && (t.text == "@" || t.text == ":" ==> t.kind == ValueChar)
  {
    LexIsFaithful(s);
    ShadowedKinds(Lex(s).value[i]);
  }

  lemma ShadowedKinds(t: Token)
    requires WellFormedToken(t)
    ensures t.kind != At && t.kind != Colon
    ensures t.text == "@" || t.text == ":" ==> t.kind == ValueChar
  {
    assert t.text == "@" || t.text == ":" ==> t.text[0] == '@' || t.text[0] == ':';
  }

  /** Two neighbouring characters a longest-match rule would read as one token. */
  predicate Joins(c: char, d: char) {
    || (In(c, Blank) && In(d, Blank))
    || (In(c, IdentPart) && In(d, IdentPart))
  }

  predicate Separable(a: string, b: string) {
    a != "" && b != "" ==> !Joins(a[|a| - 1], b[0])
  }

  lemma SpanAppend(k: Class, a: string, b: string)
    requires Span(k, a) < |a| || b == "" || !In(b[0], k)
    ensures Span(k, a + b) == Span(k, a)
  {
    SpanUnique(k, a + b, Span(k, a));
  }

  /** A run that reaches the end of a stops there, whatever follows. */
  lemma RunStops(k: Class, a: string, b: string)
    requires a != "" && Separable(a, b) && k != IdentStart
    ensures Span(k, a + b) == Span(k, a)
  {
    if Span(k, a) == |a| {
      assert In(a[|a| - 1], k);
    }
    SpanAppend(k, a, b);
  }

  lemma IdentRunStops(a: string, b: string)
    requires a != "" && In(a[0], IdentStart) && Separable(a, b)
    ensures Span(IdentPart, (a + b)[1..]) == Span(IdentPart, a[1..])
  {
    assert (a + b)[1..] == a[1..] + b;
    if a[1..] == "" {
      assert a[1..] + b == b;
    } else {
      RunStops(IdentPart, a[1..], b);
    }
  }

  lemma ClassifyAppend(a: string, b: string)
    requires a != "" && Classify(a).Some? && Separable(a, b)
    ensures Classify(a + b) == Classify(a)
  {
    var t := Classify(a).value;
    assert (a + b)[..|t.text|] == a[..|t.text|];
    RunStops(Blank, a, b);
    RunStops(Digit, a, b);
    if In(a[0], IdentStart) {
      IdentRunStops(a, b);
    }
    hide Span, Separable;
  }

  lemma PrependTwice(a: seq<Token>, b: seq<Token>, r: Option<seq<Token>>)
    ensures Prepend(a, Prepend(b, r)) == Prepend(a + b, r)
  {
    if r.Some? {
      assert a + (b + r.value) == (a + b) + r.value;
    }
  }

  lemma LexStep(s: string, t: Token)
    requires s != "" && Classify(s) == Some(t)
    ensures Lex(s) == Prepend([t], Lex(s[|t.text|..]))
  {}

  /** Lexing goes piece by piece wherever no token can straddle the cut. */
  lemma {:induction false} LexAppend(a: string, b: string)
    requires Lex(a).Some? && Separable(a, b)
    ensures Lex(a + b) == Prepend(Lex(a).value, Lex(b))
  {
    if a == "" {
      assert a + b == b;
      assert Lex(b).Some? ==> [] + Lex(b).value == Lex(b).value;
    } else {
      var t := Classify(a).value;
      ClassifyAppend(a, b);
      hide Classify, Separable;
      var rest := a[|t.text|..];
      assert (a + b)[|t.text|..] == rest + b;
      LexStep(a, t);
      LexStep(a + b, t);
      LexAppend(rest, b);
      PrependTwice([t], Lex(rest).value, Lex(b));
    }
  }

  /** participle.Elide("Whitespace"): the parser never sees these tokens. */
  function Elide(ts: seq<Token>): (r: seq<Token>) {
    if ts == [] then []
    else if ts[0].kind == Whitespace then Elide(ts[1..])
    else [ts[0]] + Elide(ts[1..])
  }

  lemma {:induction false} ElideAppend(a: seq<Token>, b: seq<Token>)
    ensures Elide(a + b) == Elide(a) + Elide(b)
  {
    if a == [] {
      assert a + b == b;
    } else {
      assert (a + b)[1..] == a[1..] + b;
      ElideAppend(a[1..], b);
    }
  }

  lemma NonBlankToken(t: Token)
    requires WellFormedToken(t) && t.kind != Whitespace
    ensures forall c :: c in t.text ==> !In(c, Blank)
  {}

  /** What survives elision spells the input without its blanks, inside braces as outside. */
  lemma {:induction false} ElideSpellsStrip(ts: seq<Token>)
    requires Lexed(ts)
    ensures TextOf(Elide(ts)) == Strip(TextOf(ts))
    ensures forall i :: 0 <= i < |Elide(ts)| ==>
      WellFormedToken(Elide(ts)[i]) && Elide(ts)[i].kind != Whitespace
  {
    if ts != [] {
      ElideSpellsStrip(ts[1..]);
      StripAppend(ts[0].text, TextOf(ts[1..]));
      if ts[0].kind == Whitespace {
        StripAll(ts[0].text);
      } else {
        NonBlankToken(ts[0]);
        StripKeeps(ts[0].text);
        assert Elide(ts)[1..] == Elide(ts[1..]);
      }
    }
  }

  lemma OneToken(s: string, t: Token)
    requires s != "" && t.text == s
    ensures Lex(s) == Some([t]) <==> Classify(s) == Some(t)
  {
    if Classify(s).Some? {
      var u := Classify(s).value;
      LexStep(s, u);
      assert s[|s|..] == "" && Lex("") == Some([]);
      var rest := Lex(s[|u.text|..]);
      if rest.Some? {
        assert ([u] + rest.value)[0] == u;
        assert u == t ==> [u] + rest.value == [t];
      }
    }
  }

  /** Which characters lex alone, and as what. */
  lemma OneCharacter(c: char)
    ensures var alone := Lex([c]);
      && (alone == Some([Token(Ident, [c])]) <==> 'a' <= c <= 'z' || 'A' <= c <= 'Z' || c == '_')
      && (alone == Some([Token(Number, [c])]) <==> '0' <= c <= '9')
      && (alone == Some([Token(Whitespace, [c])]) <==> c in [' ', '\t', '\n', '\r', '\U{0C}'])
      && (alone == Some([Token(ValueChar, [c])]) <==> c in ['@', '.', ':', '+'])
  {
    assert [c][..1] == [c] && Span(Blank, [c]) <= 1 && Span(Digit, [c]) <= 1 && Span(IdentPart, [c][1..]) == 0;
    OneToken([c], Token(Ident, [c]));
    OneToken([c], Token(Number, [c]));
    OneToken([c], Token(Whitespace, [c]));
    OneToken([c], Token(ValueChar, [c]));
    hide Lex;
  }

  /** Which characters go on an identifier, and which a number. */
  lemma NextCharacter(c: char)
    ensures Lex(['a', c]) == Some([Token(Ident, ['a', c])]) <==>
      'a' <= c <= 'z' || 'A' <= c <= 'Z' || '0' <= c <= '9' || c in ['_', '.', '-']
    ensures Lex(['7', c]) == Some([Token(Number, ['7', c])]) <==> '0' <= c <= '9'
    ensures Lex(['\\', c]) == Some([Token(Escaped, ['\\', c])]) <==>
      c in ['{', '}', '|', '&', '(', ')', '@', ':', '\\', '*']
  {
    NextSpans(c);
    assert ['a', c][1..] == [c] && ['a', c][..1] == ['a'] && ['a', c][..2] == ['a', c];
    assert ['7', c][..1] == ['7'] && ['7', c][..2] == ['7', c] && ['\\', c][..2] == ['\\', c];
    OneToken(['a', c], Token(Ident, ['a', c]));
    OneToken(['7', c], Token(Number, ['7', c]));
    OneToken(['\\', c], Token(Escaped, ['\\', c]));
    hide Lex, Span;
  }

  lemma NextSpans(c: char)
    ensures Span(IdentPart, [c]) == if In(c, IdentPart) then 1 else 0
    ensures Span(Digit, [c]) == if In(c, Digit) then 1 else 0
    ensures Span(Digit, ['7', c]) == if In(c, Digit) then 2 else 1
  {
    assert [c][1..] == "" && ['7', c][1..] == [c];
  }
}

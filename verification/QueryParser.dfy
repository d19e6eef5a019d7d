/** The grammar as a parser with one token of lookahead, and the printer it inverts.
    Literals are matched by a token's text: the kinds At and Colon never occur. */
module QueryParser {
  import opened Text
  import opened QueryLexer
  import opened QueryAst

  predicate Starts(ts: seq<Token>, text: string) {
    ts != [] && ts[0].text == text
  }

  function ParseOr(ts: seq<Token>): (r: Option<(OrExpr, seq<Token>)>)
    ensures r.Some? ==> |r.value.1| < |ts|
    decreases |ts|, 4
  {
    match ParseAnd(ts)
    case None => None
    case Some((left, rest)) =>
      match ParseOrTail(rest)
      case None => None
      case Some((right, rest')) => Some((OrExpr(left, right), rest'))
  }

  function ParseOrTail(ts: seq<Token>): (r: Option<(seq<AndExpr>, seq<Token>)>)
    ensures r.Some? ==> |r.value.1| <= |ts|
    decreases |ts|, 0
  {
    if !Starts(ts, "|") then Some(([], ts))
    else
      match ParseAnd(ts[1..])
      case None => None
      case Some((x, rest)) =>
        match ParseOrTail(rest)
        case None => None
        case Some((xs, rest')) => Some(([x] + xs, rest'))
  }

  function ParseAnd(ts: seq<Token>): (r: Option<(AndExpr, seq<Token>)>)
    ensures r.Some? ==> |r.value.1| < |ts|
    decreases |ts|, 3
  {
    match ParseUnary(ts)
    case None => None
    case Some((left, rest)) =>
      match ParseAndTail(rest)
      case None => None
      case Some((right, rest')) => Some((AndExpr(left, right), rest'))
  }

  function ParseAndTail(ts: seq<Token>): (r: Option<(seq<Unary>, seq<Token>)>)
    ensures r.Some? ==> |r.value.1| <= |ts|
    decreases |ts|, 0
  {
    if !Starts(ts, "&") then Some(([], ts))
    else
      match ParseUnary(ts[1..])
      case None => None
      case Some((x, rest)) =>
        match ParseAndTail(rest)
        case None => None
        case Some((xs, rest')) => Some(([x] + xs, rest'))
  }

  function ParseUnary(ts: seq<Token>): (r: Option<(Unary, seq<Token>)>)
    ensures r.Some? ==> |r.value.1| < |ts|
    decreases |ts|, 2
  {
    if Starts(ts, "(") then
      match ParseOr(ts[1..])
      case None => None
      case Some((e, rest)) =>
        if Starts(rest, ")") then Some((SubExpr(e), rest[1..])) else None
    else
      match ParseField(ts)
      case None => None
      case Some((f, rest)) => Some((Leaf(f), rest))
  }

  function ParseField(ts: seq<Token>): (r: Option<(Field, seq<Token>)>)
    ensures r.Some? ==> |r.value.1| < |ts|
  {
    if |ts| >= 4 && ts[0].text == "@" && ts[1].kind == Ident && ts[2].text == ":" && ts[3].text == "{"
    then
      match ParseValue(ts[4..])
      case None => None
      case Some((raw, rest)) => Some((Field(ts[1].text, raw), rest))
    else None
  }

  /** The value and the brace that closes it. */
  function ParseValue(ts: seq<Token>): (r: Option<(string, seq<Token>)>)
    ensures r.Some? ==> |r.value.1| < |ts|
  {
    var n := ValueRun(ts);
    if n > 0 && Starts(ts[n..], "}") then Some((TextOf(ts[..n]), ts[n + 1..])) else None
  }

  /** How many tokens a value's one-or-more capture takes. */
  function ValueRun(ts: seq<Token>): (n: nat)
    ensures n <= |ts|
    ensures AllValueTokens(ts[..n])
    ensures n < |ts| ==> !IsValueKind(ts[n].kind)
  {
    if ts != [] && IsValueKind(ts[0].kind) then 1 + ValueRun(ts[1..]) else 0
  }

  datatype ParseResult = Empty | SyntaxError | Parsed(query: OrExpr)

  function Parse(input: string): ParseResult {
    var s := TrimSpace(input);
    if s == "" then Empty
    else
      match Lex(s)
      case None => SyntaxError
      case Some(ts) =>
        match ParseOr(Elide(ts))
        case None => SyntaxError
        case Some((e, rest)) => if rest == [] then Parsed(e) else SyntaxError
  }

  /** Printing, with any blank padding around the operators. */

  function PrintOr(e: OrExpr, pad: string): string
    decreases e, 1
  {
    PrintAnd(e.left, pad) + PrintOrTail(e.right, pad)
  }

  function PrintOrTail(xs: seq<AndExpr>, pad: string): string
    decreases xs, 0
  {
    if xs == [] then ""
    else (pad + "|" + pad) + (PrintAnd(xs[0], pad) + PrintOrTail(xs[1..], pad))
  }

  function PrintAnd(a: AndExpr, pad: string): string
    decreases a, 1
  {
    PrintUnary(a.left, pad) + PrintAndTail(a.right, pad)
  }

  function PrintAndTail(xs: seq<Unary>, pad: string): string
    decreases xs, 0
  {
    if xs == [] then ""
    else (pad + "&" + pad) + (PrintUnary(xs[0], pad) + PrintAndTail(xs[1..], pad))
  }

  function PrintUnary(u: Unary, pad: string): string
    decreases u, 1
  {
    match u
    case SubExpr(e) => "(" + PrintOr(e, pad) + ")"
    case Leaf(f) => PrintField(f)
  }

  function PrintField(f: Field): string {
    "@" + (f.name + (":" + ("{" + (f.raw + "}"))))
  }

  /** The trees the printer can spell: identifiers as names, value texts as values. */
  predicate WfOr(e: OrExpr)
    decreases e, 1
  {
    WfAnd(e.left) && WfAnds(e.right)
  }

  predicate WfAnds(xs: seq<AndExpr>)
    decreases xs, 0
  {
    forall i :: 0 <= i < |xs| ==> WfAnd(xs[i])
  }

  predicate WfAnd(a: AndExpr)
    decreases a, 1
  {
    WfUnary(a.left) && WfUnaries(a.right)
  }

  predicate WfUnaries(us: seq<Unary>)
    decreases us, 0
  {
    forall i :: 0 <= i < |us| ==> WfUnary(us[i])
  }

  predicate WfUnary(u: Unary)
    decreases u, 1
  {
    match u
    case SubExpr(e) => WfOr(e)
    case Leaf(f) => WfField(f)
  }

  predicate WfField(f: Field) {
    IsIdent(f.name) && f.raw != "" && IsValueText(f.raw, false)
  }

  /** The tokens the parser sees for a printed tree. */

  function ToksOr(e: OrExpr): seq<Token>
    requires WfOr(e)
    decreases e, 1
  {
    ToksAnd(e.left) + ToksOrTail(e.right)
  }

  function ToksOrTail(xs: seq<AndExpr>): seq<Token>
    requires WfAnds(xs)
    decreases xs, 0
  {
    if xs == [] then [] else [Token(Or, "|")] + (ToksAnd(xs[0]) + ToksOrTail(xs[1..]))
  }

  function ToksAnd(a: AndExpr): seq<Token>
    requires WfAnd(a)
    decreases a, 1
  {
    ToksUnary(a.left) + ToksAndTail(a.right)
  }

  function ToksAndTail(xs: seq<Unary>): seq<Token>
    requires WfUnaries(xs)
    decreases xs, 0
  {
    if xs == [] then [] else [Token(And, "&")] + (ToksUnary(xs[0]) + ToksAndTail(xs[1..]))
  }

  function ToksUnary(u: Unary): seq<Token>
    requires WfUnary(u)
    decreases u, 1
  {
    match u
    case SubExpr(e) => [Token(LParen, "(")] + (ToksOr(e) + [Token(RParen, ")")])
    case Leaf(f) => ToksField(f)
  }

  function ToksField(f: Field): seq<Token>
    requires WfField(f)
  {
    ValueTextLexes(f.raw);
    FieldHead(f.name) + (Lex(f.raw).value + [Token(RBrace, "}")])
  }

  function FieldHead(name: string): seq<Token> {
    [Token(ValueChar, "@"), Token(Ident, name), Token(ValueChar, ":"), Token(LBrace, "{")]
  }

  /** A text that lexes, blanks aside, to the given tokens. */
  predicate Spells(s: string, ts: seq<Token>) {
    Lex(s).Some? && Elide(Lex(s).value) == ts
  }

  /** A text nothing can join on to. */
  predicate Closed(s: string) {
    s != "" && (s[|s| - 1] == '}' || s[|s| - 1] == ')')
  }

  predicate Opens(s: string) {
    s != "" && (s[0] == '@' || s[0] == '(')
  }

  lemma SpellsAppend(a: string, b: string, ta: seq<Token>, tb: seq<Token>)
    requires Spells(a, ta) && Spells(b, tb) && Separable(a, b)
    ensures Spells(a + b, ta + tb)
  {
    LexAppend(a, b);
    ElideAppend(Lex(a).value, Lex(b).value);
  }

  /** The one-character tokens the printer writes. */
  predicate IsSign(c: char, k: Kind) {
    || (c in "@:" && k == ValueChar)
    || (c == '{' && k == LBrace) || (c == '}' && k == RBrace)
    || (c == '(' && k == LParen) || (c == ')' && k == RParen)
    || (c == '|' && k == Or) || (c == '&' && k == And)
  }

  lemma SpellsSign(c: char, k: Kind)
    requires IsSign(c, k)
    ensures Spells([c], [Token(k, [c])])
  {
    LexStep([c], Token(k, [c]));
    assert [c][1..] == "";
  }

  /** A sign joins nothing, before it or after it. */
  lemma SignThen(a: string, c: char, k: Kind, b: string, ta: seq<Token>, tb: seq<Token>)
    requires IsSign(c, k) && Spells(a, ta) && Spells(b, tb)
    ensures Spells(a + ([c] + b), ta + ([Token(k, [c])] + tb))
  {
    SpellsSign(c, k);
    hide Spells;
    SpellsAppend([c], b, [Token(k, [c])], tb);
    SpellsAppend(a, [c] + b, ta, [Token(k, [c])] + tb);
  }

  lemma SpellsIdent(s: string)
    requires IsIdent(s)
    ensures Spells(s, [Token(Ident, s)])
  {
    SpanUnique(IdentPart, s[1..], |s| - 1);
    assert s[..|s|] == s;
    LexStep(s, Token(Ident, s));
  }

  lemma {:induction false} NothingElided(ts: seq<Token>)
    requires AllValueTokens(ts)
    ensures Elide(ts) == ts
  {
    if ts != [] {
      NothingElided(ts[1..]);
    }
  }

  lemma SpellsBlank(pad: string)
    requires forall i :: 0 <= i < |pad| ==> In(pad[i], Blank)
    ensures Spells(pad, [])
  {
    if pad != "" {
      SpanUnique(Blank, pad, |pad|);
      assert pad[..|pad|] == pad;
      LexStep(pad, Token(Whitespace, pad));
    }
  }

  lemma SpellsEmpty()
    ensures Spells("", [])
  {
    SpellsBlank("");
  }

  lemma FieldHeadIs(name: string, v: seq<Token>)
    ensures [] + ([Token(ValueChar, "@")] + ([Token(Ident, name)] + ([Token(ValueChar, ":")]
      + ([] + ([Token(LBrace, "{")] + v))))) == FieldHead(name) + v
  {}

  /** A field's text: all signs but for a name and a value. */
  lemma SpellsFieldParts(name: string, raw: string, value: seq<Token>)
    requires IsIdent(name) && Spells(raw, value)
    ensures Spells("" + ("@" + (name + (":" + ("" + ("{" + (raw + ("}" + ""))))))),
      FieldHead(name) + (value + ([Token(RBrace, "}")] + [])))
  {
    SpellsEmpty();
    SpellsIdent(name);
    var v := value + ([Token(RBrace, "}")] + []);
    FieldHeadIs(name, v);
    hide Spells, IsIdent, FieldHead;
    SignThen(raw, '}', RBrace, "", value, []);
    var s := raw + ("}" + "");
    SignThen("", '{', LBrace, s, [], v);
    var braced, bracedToks := "" + ("{" + s), [] + ([Token(LBrace, "{")] + v);
    SignThen(name, ':', ValueChar, braced, [Token(Ident, name)], bracedToks);
    SignThen("", '@', ValueChar, name + (":" + braced), [],
      [Token(Ident, name)] + ([Token(ValueChar, ":")] + bracedToks));
  }

  lemma FieldEdges(f: Field)
    ensures Opens(PrintField(f)) && Closed(PrintField(f))
    ensures PrintField(f) == "" + ("@" + (f.name + (":" + ("" + ("{" + (f.raw + ("}" + "")))))))
  {
    assert "}" + "" == "}";
  }

  lemma SpellsField(f: Field)
    requires WfField(f)
    ensures Spells(PrintField(f), ToksField(f))
    ensures Opens(PrintField(f)) && Closed(PrintField(f))
  {
    ValueTextLexes(f.raw);
    FieldEdges(f);
    var value := Lex(f.raw).value;
    NothingElided(value);
    hide Lex, IsValueText, Opens, Closed;
    SpellsFieldParts(f.name, f.raw, value);
    assert [Token(RBrace, "}")] + [] == [Token(RBrace, "}")];
  }

  lemma ClosedThen(a: string, b: string, ta: seq<Token>, tb: seq<Token>)
    requires Spells(a, ta) && Spells(b, tb) && Closed(a)
    ensures Spells(a + b, ta + tb)
    ensures b == "" || Closed(b) ==> Closed(a + b)
    ensures Opens(a) ==> Opens(a + b)
  {
    SpellsAppend(a, b, ta, tb);
    if b == "" {
      assert a + b == a;
    }
  }

  lemma BlankThenOpen(pad: string, s: string)
    requires forall i :: 0 <= i < |pad| ==> In(pad[i], Blank)
    requires Opens(s)
    ensures Separable(pad, s)
  {}

  lemma ClosedAfter(a: string, s: string)
    ensures Closed(s) ==> Closed(a + s)
  {}

  lemma SpellsAfterOperator(pad: string, c: char, k: Kind, s: string, ts: seq<Token>)
    requires forall i :: 0 <= i < |pad| ==> In(pad[i], Blank)
    requires IsSign(c, k)
    requires Spells(s, ts) && Opens(s)
    ensures Spells((pad + [c] + pad) + s, [Token(k, [c])] + ts)
    ensures Closed(s) ==> Closed((pad + [c] + pad) + s)
  {
    SpellsBlank(pad);
    BlankThenOpen(pad, s);
    ClosedAfter(pad + [c] + pad, s);
    hide *;
    SpellsAppend(pad, s, [], ts);
    assert [] + ts == ts;
    SignThen(pad, c, k, pad + s, [], ts);
    assert (pad + [c] + pad) + s == pad + ([c] + (pad + s));
    assert [] + ([Token(k, [c])] + ts) == [Token(k, [c])] + ts;
  }

  lemma {:induction false} SpellsOr(e: OrExpr, pad: string)
    requires WfOr(e)
    requires forall i :: 0 <= i < |pad| ==> In(pad[i], Blank)
    ensures Spells(PrintOr(e, pad), ToksOr(e))
    ensures Opens(PrintOr(e, pad)) && Closed(PrintOr(e, pad))
    decreases e, 1
  {
    hide Spells, Opens, Closed;
    SpellsAnd(e.left, pad);
    SpellsOrTail(e.right, pad);
    ClosedThen(PrintAnd(e.left, pad), PrintOrTail(e.right, pad), ToksAnd(e.left), ToksOrTail(e.right));
  }

  lemma {:induction false} SpellsOrTail(xs: seq<AndExpr>, pad: string)
    requires WfAnds(xs)
    requires forall i :: 0 <= i < |pad| ==> In(pad[i], Blank)
    ensures Spells(PrintOrTail(xs, pad), ToksOrTail(xs))
    ensures xs != [] ==> Closed(PrintOrTail(xs, pad))
    decreases xs, 0
  {
    if xs == [] {
      SpellsEmpty();
    } else {
      hide Spells, Opens, Closed, WfUnary, WfAnd;
      SpellsAnd(xs[0], pad);
      SpellsOrTail(xs[1..], pad);
      var first, more := PrintAnd(xs[0], pad), PrintOrTail(xs[1..], pad);
      ClosedThen(first, more, ToksAnd(xs[0]), ToksOrTail(xs[1..]));
      SpellsAfterOperator(pad, '|', Or, first + more, ToksAnd(xs[0]) + ToksOrTail(xs[1..]));
    }
  }

  lemma {:induction false} SpellsAnd(a: AndExpr, pad: string)
    requires WfAnd(a)
    requires forall i :: 0 <= i < |pad| ==> In(pad[i], Blank)
    ensures Spells(PrintAnd(a, pad), ToksAnd(a))
    ensures Opens(PrintAnd(a, pad)) && Closed(PrintAnd(a, pad))
    decreases a, 1
  {
    hide Spells, Opens, Closed;
    SpellsUnary(a.left, pad);
    SpellsAndTail(a.right, pad);
    ClosedThen(PrintUnary(a.left, pad), PrintAndTail(a.right, pad),
      ToksUnary(a.left), ToksAndTail(a.right));
  }

  lemma {:induction false} SpellsAndTail(xs: seq<Unary>, pad: string)
    requires WfUnaries(xs)
    requires forall i :: 0 <= i < |pad| ==> In(pad[i], Blank)
    ensures Spells(PrintAndTail(xs, pad), ToksAndTail(xs))
    ensures xs != [] ==> Closed(PrintAndTail(xs, pad))
    decreases xs, 0
  {
    if xs == [] {
      SpellsEmpty();
    } else {
      hide Spells, Opens, Closed, WfUnary, WfAnd;
      SpellsUnary(xs[0], pad);
      SpellsAndTail(xs[1..], pad);
      var first, more := PrintUnary(xs[0], pad), PrintAndTail(xs[1..], pad);
      ClosedThen(first, more, ToksUnary(xs[0]), ToksAndTail(xs[1..]));
      SpellsAfterOperator(pad, '&', And, first + more, ToksUnary(xs[0]) + ToksAndTail(xs[1..]));
    }
  }

  lemma {:induction false} SpellsUnary(u: Unary, pad: string)
    requires WfUnary(u)
    requires forall i :: 0 <= i < |pad| ==> In(pad[i], Blank)
    ensures Spells(PrintUnary(u, pad), ToksUnary(u))
    ensures Opens(PrintUnary(u, pad)) && Closed(PrintUnary(u, pad))
    decreases u, 1
  {
    hide Spells;
    match u
    case SubExpr(e) =>
      SpellsOr(e, pad);
      SpellsEmpty();
      SignThen(PrintOr(e, pad), ')', RParen, "", ToksOr(e), []);
      var rest := PrintOr(e, pad) + (")" + "");
      SignThen("", '(', LParen, rest, [], ToksOr(e) + ([Token(RParen, ")")] + []));
      assert PrintUnary(u, pad) == "" + ("(" + rest);
      assert ToksUnary(u) == [] + ([Token(LParen, "(")] + (ToksOr(e) + ([Token(RParen, ")")] + [])));
    case Leaf(f) => SpellsField(f);
  }
}

/** Parsing inverts printing, and every parse is of a tree that printing can spell. */
module QueryRoundTrip {
  import opened Text
  import opened QueryLexer
  import opened QueryAst
  import opened QueryParser

  lemma {:induction false} ValueRunStops(value: seq<Token>, rest: seq<Token>)
    requires AllValueTokens(value)
    requires rest != [] && !IsValueKind(rest[0].kind)
    ensures ValueRun(value + rest) == |value|
  {
    if value == [] {
      assert value + rest == rest;
    } else {
      assert (value + rest)[1..] == value[1..] + rest;
      ValueRunStops(value[1..], rest);
    }
  }

  lemma ParseValueToks(value: seq<Token>, rest: seq<Token>)
    requires AllValueTokens(value) && value != []
    ensures ParseValue(value + ([Token(RBrace, "}")] + rest)) == Some((TextOf(value), rest))
  {
    var close := [Token(RBrace, "}")] + rest;
    ValueRunStops(value, close);
    hide ValueRun, TextOf;
    assert (value + close)[..|value|] == value;
    assert (value + close)[|value|..] == close;
    assert (value + close)[|value| + 1..] == rest;
  }

  lemma ParseFieldBody(name: string, v: seq<Token>, raw: string, rest: seq<Token>)
    requires ParseValue(v) == Some((raw, rest))
    ensures ParseField(FieldHead(name) + v) == Some((Field(name, raw), rest))
  {
    hide ParseValue;
    var ts := FieldHead(name) + v;
    assert ts[4..] == v;
  }

  lemma ParseFieldToks(f: Field, rest: seq<Token>)
    requires WfField(f)
    ensures ParseField(ToksField(f) + rest) == Some((f, rest))
    ensures ToksField(f)[0].text == "@"
  {
    FieldToksAre(f);
    var value := Lex(f.raw).value;
    var close := [Token(RBrace, "}")];
    hide *;
    ParseValueToks(value, rest);
    ParseFieldBody(f.name, value + (close + rest), f.raw, rest);
    FourParts(FieldHead(f.name), value, close, rest);
  }

  lemma FourParts(a: seq<Token>, b: seq<Token>, c: seq<Token>, d: seq<Token>)
    ensures (a + (b + c)) + d == a + (b + (c + d))
  {}

  lemma FieldToksAre(f: Field)
    requires WfField(f)
    ensures Lex(f.raw).Some?
    ensures var value := Lex(f.raw).value;
      && ToksField(f) == FieldHead(f.name) + (value + [Token(RBrace, "}")])
      && AllValueTokens(value) && value != [] && TextOf(value) == f.raw
    ensures ToksField(f)[0].text == "@"
  {
    ValueTextLexes(f.raw);
    var value := Lex(f.raw).value;
    hide Lex, AllValueTokens, IsValueText;
    assert TextOf([]) == "";
  }

  lemma NoAndAfter(xs: seq<AndExpr>, rest: seq<Token>)
    requires WfAnds(xs)
    requires !Starts(rest, "&")
    ensures !Starts(ToksOrTail(xs) + rest, "&")
  {
    if xs == [] {
      assert ToksOrTail(xs) + rest == rest;
    } else {
      assert (ToksOrTail(xs) + rest)[0].text == "|";
    }
  }

  lemma {:induction false} ParseOrToks(e: OrExpr, rest: seq<Token>)
    requires WfOr(e) && !Starts(rest, "|") && !Starts(rest, "&")
    ensures ParseOr(ToksOr(e) + rest) == Some((e, rest))
    decreases e, 1
  {
    var more := ToksOrTail(e.right) + rest;
    assert ToksOr(e) + rest == ToksAnd(e.left) + more;
    NoAndAfter(e.right, rest);
    ParseAndToks(e.left, more);
    ParseOrTailToks(e.right, rest);
  }

  lemma ParseOrTailSteps(xs: seq<AndExpr>, rest: seq<Token>)
    requires WfAnds(xs)
    ensures xs == [] && !Starts(rest, "|") ==> ParseOrTail(ToksOrTail(xs) + rest) == Some((xs, rest))
    ensures xs != [] ==>
      var ts := ToksOrTail(xs) + rest;
      ts != [] && ts[0].text == "|" && ts[1..] == ToksAnd(xs[0]) + (ToksOrTail(xs[1..]) + rest)
  {
    hide ToksAnd, WfAnd;
    assert ToksOrTail([]) + rest == rest;
    if xs != [] {
      assert ToksOrTail(xs) + rest == [Token(Or, "|")] + (ToksAnd(xs[0]) + (ToksOrTail(xs[1..]) + rest));
    }
  }

  lemma ParseOrTailUnfold(ts: seq<Token>, x: AndExpr, mid: seq<Token>, xs: seq<AndExpr>, rest: seq<Token>)
    requires Starts(ts, "|") && ParseAnd(ts[1..]) == Some((x, mid))
    requires ParseOrTail(mid) == Some((xs, rest))
    ensures ParseOrTail(ts) == Some(([x] + xs, rest))
  {}

  lemma {:induction false} ParseOrTailToks(xs: seq<AndExpr>, rest: seq<Token>)
    requires WfAnds(xs)
    requires !Starts(rest, "|") && !Starts(rest, "&")
    ensures ParseOrTail(ToksOrTail(xs) + rest) == Some((xs, rest))
    decreases xs, 0
  {
    ParseOrTailSteps(xs, rest);
    if xs != [] {
      var more := ToksOrTail(xs[1..]) + rest;
      NoAndAfter(xs[1..], rest);
      hide *;
      ParseAndToks(xs[0], more);
      ParseOrTailToks(xs[1..], rest);
      ParseOrTailUnfold(ToksOrTail(xs) + rest, xs[0], more, xs[1..], rest);
      assert xs == [xs[0]] + xs[1..];
    }
  }

  lemma {:induction false} ParseAndToks(a: AndExpr, rest: seq<Token>)
    requires WfAnd(a) && !Starts(rest, "&")
    ensures ParseAnd(ToksAnd(a) + rest) == Some((a, rest))
    decreases a, 1
  {
    var more := ToksAndTail(a.right) + rest;
    assert ToksAnd(a) + rest == ToksUnary(a.left) + more;
    ParseUnaryToks(a.left, more);
    ParseAndTailToks(a.right, rest);
  }

  lemma ParseAndTailSteps(xs: seq<Unary>, rest: seq<Token>)
    requires WfUnaries(xs)
    ensures xs == [] && !Starts(rest, "&") ==> ParseAndTail(ToksAndTail(xs) + rest) == Some((xs, rest))
    ensures xs != [] ==>
      var ts := ToksAndTail(xs) + rest;
      ts != [] && ts[0].text == "&" && ts[1..] == ToksUnary(xs[0]) + (ToksAndTail(xs[1..]) + rest)
  {
    hide ToksUnary, WfUnary;
    assert ToksAndTail([]) + rest == rest;
    if xs != [] {
      assert ToksAndTail(xs) + rest == [Token(And, "&")] + (ToksUnary(xs[0]) + (ToksAndTail(xs[1..]) + rest));
    }
  }

  lemma ParseAndTailUnfold(ts: seq<Token>, x: Unary, mid: seq<Token>, xs: seq<Unary>, rest: seq<Token>)
    requires Starts(ts, "&") && ParseUnary(ts[1..]) == Some((x, mid))
    requires ParseAndTail(mid) == Some((xs, rest))
    ensures ParseAndTail(ts) == Some(([x] + xs, rest))
  {}

  lemma {:induction false} ParseAndTailToks(xs: seq<Unary>, rest: seq<Token>)
    requires WfUnaries(xs)
    requires !Starts(rest, "&")
    ensures ParseAndTail(ToksAndTail(xs) + rest) == Some((xs, rest))
    decreases xs, 0
  {
    ParseAndTailSteps(xs, rest);
    if xs != [] {
      var more := ToksAndTail(xs[1..]) + rest;
      hide *;
      ParseUnaryToks(xs[0], more);
      ParseAndTailToks(xs[1..], rest);
      ParseAndTailUnfold(ToksAndTail(xs) + rest, xs[0], more, xs[1..], rest);
      assert xs == [xs[0]] + xs[1..];
    }
  }

  lemma {:induction false} ParseUnaryToks(u: Unary, rest: seq<Token>)
    requires WfUnary(u)
    ensures ParseUnary(ToksUnary(u) + rest) == Some((u, rest))
    decreases u, 1
  {
    var ts := ToksUnary(u) + rest;
    match u
    case SubExpr(e) =>
      var close := [Token(RParen, ")")] + rest;
      assert ts[0].text == "(" && ts[1..] == ToksOr(e) + close;
      ParseOrToks(e, close);
      assert close[1..] == rest;
    case Leaf(f) =>
      ParseFieldToks(f, rest);
      assert ts[0].text == "@";
  }

  lemma TrimNothing(s: string)
    requires Opens(s) && Closed(s)
    ensures TrimSpace(s) == s && s != ""
  {}

  lemma ParseSpelled(s: string, ts: seq<Token>, e: OrExpr)
    requires TrimSpace(s) == s && s != "" && Spells(s, ts) && ParseOr(ts) == Some((e, []))
    ensures Parse(s) == Parsed(e)
  {}

  /** Round trip: every well-formed tree, printed with any blank padding, parses back to
      itself with nothing left over. */
  lemma {:induction false} ParsePrint(e: OrExpr, pad: string)
    requires WfOr(e)
    requires forall i :: 0 <= i < |pad| ==> In(pad[i], Blank)
    ensures Parse(PrintOr(e, pad)) == Parsed(e)
  {
    SpellsOr(e, pad);
    var s := PrintOr(e, pad);
    TrimNothing(s);
    NoTail();
    ParseOrToks(e, []);
    hide *;
    assert ToksOr(e) + [] == ToksOr(e);
    ParseSpelled(s, ToksOr(e), e);
  }

  lemma NoTail()
    ensures !Starts([], "|") && !Starts([], "&")
  {}

  /** Two trees that print alike are the same tree: the grammar is unambiguous. */
  lemma {:induction false} PrintIsInjective(d: OrExpr, e: OrExpr, pad: string)
    requires WfOr(d) && WfOr(e) && PrintOr(d, pad) == PrintOr(e, pad)
    requires forall i :: 0 <= i < |pad| ==> In(pad[i], Blank)
    ensures d == e
  {
    ParsePrint(d, pad);
    ParsePrint(e, pad);
  }

  /** What a successful parse says of the tokens it consumed. */
  predicate Consumed(ts: seq<Token>, rest: seq<Token>, text: string) {
    |rest| <= |ts| && rest == ts[|ts| - |rest|..] && TextOf(ts[..|ts| - |rest|]) == text
  }

  lemma {:induction false} TextOfAppend(a: seq<Token>, b: seq<Token>)
    ensures TextOf(a + b) == TextOf(a) + TextOf(b)
  {
    if a == [] {
      assert a + b == b;
    } else {
      assert (a + b)[1..] == a[1..] + b;
      TextOfAppend(a[1..], b);
    }
  }

  lemma ConsumedThen(ts: seq<Token>, mid: seq<Token>, rest: seq<Token>, a: string, b: string)
    requires Consumed(ts, mid, a) && Consumed(mid, rest, b)
    ensures Consumed(ts, rest, a + b)
  {
    var n, m := |ts| - |mid|, |mid| - |rest|;
    assert ts[..n + m] == ts[..n] + mid[..m];
    TextOfAppend(ts[..n], mid[..m]);
  }

  lemma WfCons()
    ensures WfAnds([]) && WfUnaries([])
    ensures forall x, xs :: WfAnd(x) && WfAnds(xs) ==> WfAnds([x] + xs)
    ensures forall u, us :: WfUnary(u) && WfUnaries(us) ==> WfUnaries([u] + us)
  {
    hide WfAnd, WfUnary;
  }

  lemma LexedTail(ts: seq<Token>)
    requires Lexed(ts)
    ensures forall i :: 0 <= i <= |ts| ==> Lexed(ts[i..])
    ensures forall text :: Starts(ts, text) ==> ts != [] && ts[0].text == text
  {}

  lemma ConsumedAll(ts: seq<Token>, text: string)
    requires Consumed(ts, [], text)
    ensures TextOf(ts) == text
  {
    assert ts[..|ts|] == ts;
  }

  lemma ConsumedSuffix(ts: seq<Token>, rest: seq<Token>, text: string)
    requires Lexed(ts) && Consumed(ts, rest, text)
    ensures Lexed(rest)
  {}

  lemma ConsumedOne(ts: seq<Token>)
    requires ts != []
    ensures Consumed(ts, ts[1..], ts[0].text)
  {
    assert ts[..1] == [ts[0]];
    assert TextOf([ts[0]]) == ts[0].text + TextOf([]);
  }

  lemma ConsumedNone(ts: seq<Token>)
    ensures Consumed(ts, ts, "")
  {
    assert ts[..0] == [];
  }

  lemma ParseValueSound(ts: seq<Token>)
    requires Lexed(ts) && ParseValue(ts).Some?
    ensures var (raw, rest) := ParseValue(ts).value;
      raw != "" && IsValueText(raw, false) && Consumed(ts, rest, raw + "}")
  {
    var n := ValueRun(ts);
    ValueEnds(ts, n);
    hide ValueRun, IsValueText, TextOf, WellFormedToken, AllValueTokens;
    TokensAreValueText(ts[..n]);
  }

  lemma ValueEnds(ts: seq<Token>, n: nat)
    requires Lexed(ts) && 0 < n < |ts| && ts[n].text == "}"
    ensures TextOf(ts[..n]) != ""
    ensures TextOf(ts[..n + 1]) == TextOf(ts[..n]) + "}"
  {
    hide WellFormedToken;
    var front := ts[..n];
    assert WellFormedToken(ts[0]) && front[0] == ts[0];
    TokenHasText(ts[0]);
    assert TextOf(front) == front[0].text + TextOf(front[1..]);
    assert ts[..n + 1] == front + [ts[n]];
    TextOfAppend(front, [ts[n]]);
    OneText(ts[n]);
  }

  lemma TokenHasText(t: Token)
    requires WellFormedToken(t)
    ensures t.text != ""
  {}

  lemma OneText(t: Token)
    ensures TextOf([t]) == t.text
  {
    assert [t][1..] == [];
  }

  lemma ParseFieldSound(ts: seq<Token>)
    requires Lexed(ts) && ParseField(ts).Some?
    ensures var (f, rest) := ParseField(ts).value;
      WfField(f) && Consumed(ts, rest, PrintField(f))
  {
    var (f, rest) := ParseField(ts).value;
    ParseValueSound(ts[4..]);
    ConsumedOne(ts);
    ConsumedOne(ts[1..]);
    ConsumedOne(ts[2..]);
    ConsumedOne(ts[3..]);
    hide Consumed, IsValueText, ParseValue;
    ConsumedThen(ts[3..], ts[4..], rest, "{", f.raw + "}");
    ConsumedThen(ts[2..], ts[3..], rest, ":", "{" + (f.raw + "}"));
    ConsumedThen(ts[1..], ts[2..], rest, f.name, ":" + ("{" + (f.raw + "}")));
    ConsumedThen(ts, ts[1..], rest, "@", f.name + (":" + ("{" + (f.raw + "}"))));
  }

  lemma {:induction false} ParseOrSound(ts: seq<Token>)
    requires Lexed(ts) && ParseOr(ts).Some?
    ensures var (e, rest) := ParseOr(ts).value;
      WfOr(e) && Consumed(ts, rest, PrintOr(e, ""))
    decreases |ts|, 4
  {
    var (left, mid) := ParseAnd(ts).value;
    ParseAndSound(ts);
    ParseOrTailSound(mid);
    var (right, rest) := ParseOrTail(mid).value;
    ConsumedThen(ts, mid, rest, PrintAnd(left, ""), PrintOrTail(right, ""));
  }

  lemma ParseOrTailCases(ts: seq<Token>)
    requires ParseOrTail(ts).Some?
    ensures !Starts(ts, "|") ==> ParseOrTail(ts).value == ([], ts) && PrintOrTail([], "") == ""
    ensures Starts(ts, "|") ==>
      && ParseAnd(ts[1..]).Some?
      && var (x, mid) := ParseAnd(ts[1..]).value;
      && ParseOrTail(mid).Some?
      && var (xs, rest) := ParseOrTail(mid).value;
      && ParseOrTail(ts).value == ([x] + xs, rest)
      && PrintOrTail([x] + xs, "") == "|" + (PrintAnd(x, "") + PrintOrTail(xs, ""))
  {
    if Starts(ts, "|") {
      var (x, mid) := ParseAnd(ts[1..]).value;
      TailText(x, ParseOrTail(mid).value.0);
    }
  }

  lemma {:induction false} ParseOrTailSound(ts: seq<Token>)
    requires Lexed(ts) && ParseOrTail(ts).Some?
    ensures var (xs, rest) := ParseOrTail(ts).value;
      && WfAnds(xs)
      && Consumed(ts, rest, PrintOrTail(xs, ""))
    decreases |ts|, 0
  {
    ParseOrTailCases(ts);
    WfCons();
    LexedTail(ts);
    hide *;
    if !Starts(ts, "|") {
      ConsumedNone(ts);
    } else {
      var (x, mid) := ParseAnd(ts[1..]).value;
      var (xs, rest) := ParseOrTail(mid).value;
      ParseAndSound(ts[1..]);
      ConsumedSuffix(ts[1..], mid, PrintAnd(x, ""));
      ParseOrTailSound(mid);
      ConsumedThen(ts[1..], mid, rest, PrintAnd(x, ""), PrintOrTail(xs, ""));
      ConsumedOne(ts);
      ConsumedThen(ts, ts[1..], rest, "|", PrintAnd(x, "") + PrintOrTail(xs, ""));
    }
  }

  lemma TailText(x: AndExpr, xs: seq<AndExpr>)
    ensures PrintOrTail([x] + xs, "") == "|" + (PrintAnd(x, "") + PrintOrTail(xs, ""))
  {
    assert ([x] + xs)[1..] == xs;
    assert "" + "|" + "" == "|";
  }

  lemma {:induction false} ParseAndSound(ts: seq<Token>)
    requires Lexed(ts) && ParseAnd(ts).Some?
    ensures var (a, rest) := ParseAnd(ts).value;
      WfAnd(a) && Consumed(ts, rest, PrintAnd(a, ""))
    decreases |ts|, 3
  {
    var (left, mid) := ParseUnary(ts).value;
    ParseUnarySound(ts);
    ParseAndTailSound(mid);
    var (right, rest) := ParseAndTail(mid).value;
    ConsumedThen(ts, mid, rest, PrintUnary(left, ""), PrintAndTail(right, ""));
  }

  lemma ParseAndTailCases(ts: seq<Token>)
    requires ParseAndTail(ts).Some?
    ensures !Starts(ts, "&") ==> ParseAndTail(ts).value == ([], ts) && PrintAndTail([], "") == ""
    ensures Starts(ts, "&") ==>
      && ParseUnary(ts[1..]).Some?
      && var (x, mid) := ParseUnary(ts[1..]).value;
      && ParseAndTail(mid).Some?
      && var (xs, rest) := ParseAndTail(mid).value;
      && ParseAndTail(ts).value == ([x] + xs, rest)
      && PrintAndTail([x] + xs, "") == "&" + (PrintUnary(x, "") + PrintAndTail(xs, ""))
  {
    if Starts(ts, "&") {
      var (x, mid) := ParseUnary(ts[1..]).value;
      AndTailText(x, ParseAndTail(mid).value.0);
    }
  }

  lemma {:induction false} ParseAndTailSound(ts: seq<Token>)
    requires Lexed(ts) && ParseAndTail(ts).Some?
    ensures var (xs, rest) := ParseAndTail(ts).value;
      && WfUnaries(xs)
      && Consumed(ts, rest, PrintAndTail(xs, ""))
    decreases |ts|, 0
  {
    ParseAndTailCases(ts);
    WfCons();
    LexedTail(ts);
    hide *;
    if !Starts(ts, "&") {
      ConsumedNone(ts);
    } else {
      var (x, mid) := ParseUnary(ts[1..]).value;
      var (xs, rest) := ParseAndTail(mid).value;
      ParseUnarySound(ts[1..]);
      ConsumedSuffix(ts[1..], mid, PrintUnary(x, ""));
      ParseAndTailSound(mid);
      ConsumedThen(ts[1..], mid, rest, PrintUnary(x, ""), PrintAndTail(xs, ""));
      ConsumedOne(ts);
      ConsumedThen(ts, ts[1..], rest, "&", PrintUnary(x, "") + PrintAndTail(xs, ""));
    }
  }

  lemma AndTailText(x: Unary, xs: seq<Unary>)
    ensures PrintAndTail([x] + xs, "") == "&" + (PrintUnary(x, "") + PrintAndTail(xs, ""))
  {
    assert ([x] + xs)[1..] == xs;
    assert "" + "&" + "" == "&";
  }

  lemma {:induction false} ParseUnarySound(ts: seq<Token>)
    requires Lexed(ts) && ParseUnary(ts).Some?
    ensures var (u, rest) := ParseUnary(ts).value;
      WfUnary(u) && Consumed(ts, rest, PrintUnary(u, ""))
    decreases |ts|, 2
  {
    if Starts(ts, "(") {
      var (e, mid) := ParseOr(ts[1..]).value;
      ParseOrSound(ts[1..]);
      ConsumedOne(ts);
      ConsumedOne(mid);
      ConsumedThen(ts, ts[1..], mid, "(", PrintOr(e, ""));
      ConsumedThen(ts, mid, mid[1..], "(" + PrintOr(e, ""), ")");
    } else {
      ParseFieldSound(ts);
    }
  }

  /** Every accepted input is, blanks aside, the unpadded print of the tree it gives, and
      that tree is well formed. */
  lemma ParseIsSound(input: string)
    requires Parse(input).Parsed?
    ensures WfOr(Parse(input).query)
    ensures Strip(TrimSpace(input)) == PrintOr(Parse(input).query, "")
  {
    var s := TrimSpace(input);
    var ts := Lex(s).value;
    LexIsFaithful(s);
    ElideSpellsStrip(ts);
    ParseOrSound(Elide(ts));
    assert Parse(input) == Parsed(ParseOr(Elide(ts)).value.0);
    assert ParseOr(Elide(ts)).value.1 == [];
    ConsumedAll(Elide(ts), PrintOr(Parse(input).query, ""));
  }

  lemma {:induction false} LeftIsEmpty(s: string)
    ensures TrimLeft(s) == "" <==> forall i :: 0 <= i < |s| ==> IsSpace(s[i])
  {
    hide IsSpace;
    if s != "" && IsSpace(s[0]) {
      LeftIsEmpty(s[1..]);
      assert forall i :: 0 < i < |s| ==> s[i] == s[1..][i - 1];
    }
  }

  /** An input asks for nothing in particular exactly when it is all blanks. */
  lemma EmptyExactly(input: string)
    ensures Parse(input).Empty? <==> forall i :: 0 <= i < |input| ==> IsSpace(input[i])
    ensures (forall i :: 0 <= i < |input| ==> input[i] in [' ', '\t', '\n', '\r']) ==> Parse(input).Empty?
  {
    var s := TrimLeft(input);
    LeftIsEmpty(input);
    if s != "" {
      RightKeeps(s);
    }
    hide Lex, Elide, ParseOr, TrimLeft, TrimRight;
  }

  lemma {:induction false} RightKeeps(s: string)
    requires s != "" && !IsSpace(s[0])
    ensures TrimRight(s) != ""
  {
    hide IsSpace;
    if |s| > 1 && IsSpace(s[|s| - 1]) {
      RightKeeps(s[..|s| - 1]);
    }
  }

  /** Printing is a normal form: what parses once parses to the same tree for good. */
  lemma {:induction false} ParseIsStable(input: string, pad: string)
    requires Parse(input).Parsed?
    requires forall i :: 0 <= i < |pad| ==> In(pad[i], Blank)
    ensures Parse(PrintOr(Parse(input).query, pad)) == Parse(input)
  {
    ParseIsSound(input);
    ParsePrint(Parse(input).query, pad);
  }
}

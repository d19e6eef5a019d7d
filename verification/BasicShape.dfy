/** What the parser makes of a basic search: for any term and any list of identifiers, one
    value leaf for each field or a syntax error, and nothing else. */
module BasicShape {
  import opened Text
  import opened QueryLexer
  import opened QueryAst
  import opened QueryParser
  import opened QueryRoundTrip
  import opened BasicQuery
  import opened TermTokens

  /** The value every leaf gets: the braced term without its blanks. */
  function BasicRaw(term: string): string {
    Strip(Braced(term))
  }

  function One(field: string, raw: string): AndExpr {
    AndExpr(Leaf(Field(field, raw)), [])
  }

  function Ones(fields: seq<string>, raw: string): seq<AndExpr> {
    if fields == [] then [] else [One(fields[0], raw)] + Ones(fields[1..], raw)
  }

  function BasicTree(term: string, fields: seq<string>): OrExpr
    requires fields != []
  {
    OrExpr(One(fields[0], BasicRaw(term)), Ones(fields[1..], BasicRaw(term)))
  }

  predicate AllIdents(fields: seq<string>) {
    forall i :: 0 <= i < |fields| ==> IsIdent(fields[i])
  }

  /** The text and its tokens, field by field from the front. */

  lemma {:induction false} JoinCons(a: string, parts: seq<string>, sep: string)
    requires parts != []
    ensures Join([a] + parts, sep) == a + (sep + Join(parts, sep))
  {
    var last := parts[|parts| - 1];
    var front := parts[..|parts| - 1];
    assert parts == front + [last];
    if front == [] {
      assert ([a] + parts)[..1] == [a];
    } else {
      hide Join;
      JoinCons(a, front, sep);
      assert [a] + parts == ([a] + front) + [last];
      JoinSnoc([a] + front, last, sep);
      JoinSnoc(front, last, sep);
      Regroup(a, sep, Join(front, sep), last);
    }
  }

  lemma Regroup(a: string, sep: string, front: string, last: string)
    ensures (a + (sep + front)) + sep + last == a + (sep + (front + sep + last))
  {}

  lemma TextCons(term: string, fields: seq<string>)
    requires fields != []
    ensures |fields| == 1 ==> BasicText(term, fields) == Part(fields[0], term)
    ensures |fields| > 1 ==>
      BasicText(term, fields) == Part(fields[0], term) + (" | " + BasicText(term, fields[1..]))
  {
    hide Part;
    if |fields| > 1 {
      assert Parts(term, fields) == [Part(fields[0], term)] + Parts(term, fields[1..]);
      JoinCons(Part(fields[0], term), Parts(term, fields[1..]), " | ");
    }
  }

  function PartToks(field: string, v: seq<Token>): seq<Token> {
    FieldHead(field) + (v + [Token(RBrace, "}")])
  }

  function BasicToks(v: seq<Token>, fields: seq<string>): seq<Token>
    requires fields != []
    decreases |fields|, 0
  {
    PartToks(fields[0], v) + MoreToks(v, fields[1..])
  }

  function MoreToks(v: seq<Token>, fields: seq<string>): seq<Token>
    decreases |fields|, 1
  {
    if fields == [] then [] else [Token(Or, "|")] + BasicToks(v, fields)
  }

  lemma PartEdges(field: string, term: string)
    ensures Opens(Part(field, term)) && Closed(Part(field, term))
    ensures Part(field, term) ==
      "" + ("@" + (field + (":" + ("" + ("{" + (Braced(term) + ("}" + "")))))))
  {
    assert "}" + "" == "}";
    assert ":{" == ":" + ("" + "{");
    hide Braced;
  }

  lemma SpellsPart(field: string, term: string, v: seq<Token>)
    requires IsIdent(field) && Spells(Braced(term), v)
    ensures Spells(Part(field, term), PartToks(field, v))
  {
    hide *;
    PartEdges(field, term);
    SpellsFieldParts(field, Braced(term), v);
    PartToksAre(field, v);
  }

  lemma PartToksAre(field: string, v: seq<Token>)
    ensures FieldHead(field) + (v + ([Token(RBrace, "}")] + [])) == PartToks(field, v)
  {
    assert [Token(RBrace, "}")] + [] == [Token(RBrace, "}")];
  }

  lemma OneBlank()
    ensures forall i :: 0 <= i < |" "| ==> In(" "[i], Blank)
    ensures " " + "|" + " " == " | "
    ensures IsSign('|', Or)
  {}

  lemma ToksUnfold(v: seq<Token>, fields: seq<string>)
    requires fields != []
    ensures |fields| == 1 ==> BasicToks(v, fields) == PartToks(fields[0], v)
    ensures |fields| > 1 ==>
      BasicToks(v, fields) == PartToks(fields[0], v) + ([Token(Or, "|")] + BasicToks(v, fields[1..]))
  {
    hide PartToks;
  }

  lemma {:induction false} SpellsBasic(term: string, fields: seq<string>, v: seq<Token>)
    requires fields != [] && AllIdents(fields) && Spells(Braced(term), v)
    ensures Spells(BasicText(term, fields), BasicToks(v, fields))
    ensures Opens(BasicText(term, fields)) && Closed(BasicText(term, fields))
  {
    IdentsTail(fields);
    hide *;
    TextCons(term, fields);
    ToksUnfold(v, fields);
    PartEdges(fields[0], term);
    SpellsPart(fields[0], term, v);
    if |fields| > 1 {
      var more, toks := BasicText(term, fields[1..]), BasicToks(v, fields[1..]);
      SpellsBasic(term, fields[1..], v);
      OneBlank();
      SpellsAfterOperator(" ", '|', Or, more, toks);
      ClosedThen(Part(fields[0], term), " | " + more, PartToks(fields[0], v), [Token(Or, "|")] + toks);
    }
  }

  lemma IdentsTail(fields: seq<string>)
    requires fields != [] && AllIdents(fields)
    ensures IsIdent(fields[0]) && AllIdents(fields[1..])
  {
    hide IsIdent;
  }

  /** A value that is one run of value tokens parses to a leaf for each field. */

  lemma ParseAcceptedPart(field: string, v: seq<Token>, rest: seq<Token>)
    requires AllValueTokens(v) && v != [] && !Starts(rest, "&")
    ensures ParseAnd(PartToks(field, v) + rest) == Some((One(field, TextOf(v)), rest))
  {
    var body := v + ([Token(RBrace, "}")] + rest);
    var ts := PartToks(field, v) + rest;
    PartThen(field, v, rest);
    hide *;
    ParseValueToks(v, rest);
    ParseFieldBody(field, body, TextOf(v), rest);
    LeafIsAnd(ts, Field(field, TextOf(v)), rest);
    OneIs(field, TextOf(v));
  }

  lemma PartThen(field: string, v: seq<Token>, rest: seq<Token>)
    ensures var body := v + ([Token(RBrace, "}")] + rest);
      PartToks(field, v) + rest == FieldHead(field) + body
    ensures !Starts(PartToks(field, v) + rest, "(")
  {
    hide FieldHead;
    var close := [Token(RBrace, "}")];
    FourParts(FieldHead(field), v, close, rest);
    HeadStarts(field, v + (close + rest));
  }

  lemma HeadStarts(field: string, body: seq<Token>)
    ensures !Starts(FieldHead(field) + body, "(")
  {}

  lemma LeafIsAnd(ts: seq<Token>, f: Field, rest: seq<Token>)
    requires !Starts(ts, "(") && ParseField(ts) == Some((f, rest)) && !Starts(rest, "&")
    ensures ParseAnd(ts) == Some((AndExpr(Leaf(f), []), rest))
  {
    hide ParseField;
    assert ParseUnary(ts) == Some((Leaf(f), rest));
    assert ParseAndTail(rest) == Some(([], rest));
  }

  lemma OneIs(field: string, raw: string)
    ensures One(field, raw) == AndExpr(Leaf(Field(field, raw)), [])
  {}

  lemma MoreToksStart(v: seq<Token>, fields: seq<string>)
    ensures !Starts(MoreToks(v, fields), "&")
    ensures fields == [] ==> !Starts(MoreToks(v, fields), "|")
    ensures fields != [] ==>
      && Starts(MoreToks(v, fields), "|")
      && MoreToks(v, fields)[1..] == PartToks(fields[0], v) + MoreToks(v, fields[1..])
  {
    hide PartToks;
  }

  lemma {:induction false} ParseAcceptedTail(v: seq<Token>, fields: seq<string>)
    requires AllValueTokens(v) && v != []
    ensures ParseOrTail(MoreToks(v, fields)) == Some((Ones(fields, TextOf(v)), []))
  {
    MoreToksStart(v, fields);
    if fields == [] {
      hide AllValueTokens;
    } else {
      var more := fields[1..];
      MoreToksStart(v, more);
      hide *;
      ParseAcceptedPart(fields[0], v, MoreToks(v, more));
      ParseAcceptedTail(v, more);
      ParseOrTailUnfold(MoreToks(v, fields), One(fields[0], TextOf(v)), MoreToks(v, more),
        Ones(more, TextOf(v)), []);
      OnesCons(fields, TextOf(v));
    }
  }

  lemma OnesCons(fields: seq<string>, raw: string)
    requires fields != []
    ensures Ones(fields, raw) == [One(fields[0], raw)] + Ones(fields[1..], raw)
  {}

  lemma ParseAccepted(v: seq<Token>, fields: seq<string>)
    requires fields != [] && AllValueTokens(v) && v != []
    ensures ParseOr(BasicToks(v, fields)) ==
      Some((OrExpr(One(fields[0], TextOf(v)), Ones(fields[1..], TextOf(v))), []))
  {
    MoreToksStart(v, fields[1..]);
    ParseAcceptedPart(fields[0], v, MoreToks(v, fields[1..]));
    ParseAcceptedTail(v, fields[1..]);
    hide PartToks, AllValueTokens, ParseAnd, MoreToks, TextOf;
  }

  /** A value with anything else in it never parses: the token that ends the value early is
      followed by another value token, and nothing in the grammar can take that. */

  lemma {:induction false} RunIsInside(v: seq<Token>, rest: seq<Token>)
    requires !AllValueTokens(v)
    ensures var n := ValueRun(v + rest);
      n < |v| && !IsValueKind(v[n].kind)
  {
    hide IsValueKind;
    assert v != [];
    assert (v + rest)[1..] == v[1..] + rest;
    if IsValueKind(v[0].kind) {
      assert v == [v[0]] + v[1..];
      RunIsInside(v[1..], rest);
    }
  }

  predicate ValueFirst(ts: seq<Token>) {
    ts != [] && IsValueKind(ts[0].kind) && WellFormedToken(ts[0])
  }

  lemma ValueFirstStarts(ts: seq<Token>)
    requires ValueFirst(ts)
    ensures !Starts(ts, "|") && !Starts(ts, "&") && ts != []
  {
    assert "|"[0] == '|' && "&"[0] == '&';
  }

  lemma ParseRefusedValue(v: seq<Token>, rest: seq<Token>)
    requires Guarded(v, false) && Lexed(v) && !AllValueTokens(v)
    ensures var r := ParseValue(v + rest);
      r.None? || ValueFirst(r.value.1)
  {
    RunIsInside(v, rest);
    hide IsValueKind, WellFormedToken;
    var n := ValueRun(v + rest);
    assert IsValueKind(v[n + 1].kind);
    assert (v + rest)[n + 1..][0] == v[n + 1];
  }

  lemma ParseRefusedField(field: string, v: seq<Token>, rest: seq<Token>)
    requires Guarded(v, false) && Lexed(v) && !AllValueTokens(v)
    ensures var ts := PartToks(field, v) + rest;
      && !Starts(ts, "(")
      && (ParseField(ts).None? || ValueFirst(ParseField(ts).value.1))
  {
    var body := v + ([Token(RBrace, "}")] + rest);
    ParseRefusedValue(v, [Token(RBrace, "}")] + rest);
    assert PartToks(field, v) + rest == FieldHead(field) + body;
    hide ParseValue, ValueFirst, Guarded, Lexed, PartToks, AllValueTokens;
    var ts := FieldHead(field) + body;
    assert ts[4..] == body;
  }

  lemma ParseStopsAtValue(ts: seq<Token>)
    requires !Starts(ts, "(") && (ParseField(ts).None? || ValueFirst(ParseField(ts).value.1))
    ensures ParseOr(ts).None? || ParseOr(ts).value.1 != []
  {
    hide ParseField, ValueFirst;
    if ParseField(ts).Some? {
      var (f, rest) := ParseField(ts).value;
      ValueFirstStarts(rest);
      assert ParseUnary(ts) == Some((Leaf(f), rest));
      assert ParseAndTail(rest) == Some(([], rest));
      assert ParseAnd(ts) == Some((AndExpr(Leaf(f), []), rest));
      assert ParseOrTail(rest) == Some(([], rest));
    } else {
      assert ParseUnary(ts) == None;
      assert ParseAnd(ts) == None;
    }
  }

  lemma ParseRefused(v: seq<Token>, fields: seq<string>)
    requires fields != [] && Guarded(v, false) && Lexed(v) && !AllValueTokens(v)
    ensures var r := ParseOr(BasicToks(v, fields));
      r.None? || r.value.1 != []
  {
    ParseRefusedField(fields[0], v, MoreToks(v, fields[1..]));
    hide PartToks, MoreToks, Guarded, AllValueTokens, Lexed, ParseOr, ParseField, ValueFirst;
    ParseStopsAtValue(BasicToks(v, fields));
  }

  /** A term that does not lex leaves no way to lex anything it stands in. */

  lemma ClassifyNone(a: string, b: string)
    requires a != "" && Classify(a).None? && a[|a| - 1] == '*'
    ensures (a + b)[0] == a[0] && Classify(a + b).None?
  {}

  lemma StarSeparates(a: string, b: string)
    requires a != "" && a[|a| - 1] == '*'
    ensures Separable(a, b)
  {}

  lemma {:induction false} LexNone(a: string, b: string)
    requires Lex(a).None? && a != "" && a[|a| - 1] == '*'
    ensures Lex(a + b).None?
    decreases |a|, 1
  {
    hide *;
    if Classify(a).None? {
      ClassifyNone(a, b);
      NoFirstToken(a + b);
    } else {
      LexNoneStep(a, b, Classify(a).value);
    }
  }

  lemma {:induction false} LexNoneStep(a: string, b: string, t: Token)
    requires Lex(a).None? && a != "" && a[|a| - 1] == '*' && Classify(a) == Some(t)
    ensures Lex(a + b).None?
    decreases |a|, 0
  {
    hide *;
    StarSeparates(a, b);
    ClassifyAppend(a, b);
    LexOne(a, t);
    LexOne(a + b, t);
    EmptyLexes();
    var rest := a[|t.text|..];
    assert (a + b)[|t.text|..] == rest + b;
    LexNone(rest, b);
  }

  lemma EmptyLexes()
    ensures Lex("").Some?
  {}

  lemma BracedEnds(term: string)
    ensures Braced(term) != "" && Braced(term)[|Braced(term)| - 1] == '*' && Braced(term)[0] == '*'
    ensures Braced(term) == "*" + (Escape(term) + "*")
  {}

  predicate BraceLast(s: string) {
    s != "" && s[|s| - 1] == '{'
  }

  lemma HeadLexes(field: string)
    requires IsIdent(field)
    ensures var head := "@" + (field + (":" + ("" + ("{" + ""))));
      Lex(head).Some? && BraceLast(head)
  {
    SpellsEmpty();
    SpellsIdent(field);
    SignIs();
    assert "{" + "" == "{";
    hide Lex, Elide, IsIdent;
    HeadSpells(field);
    assert "" + ("@" + (field + (":" + ("" + ("{" + ""))))) == "@" + (field + (":" + ("" + ("{" + ""))));
  }

  lemma SignIs()
    ensures IsSign('@', ValueChar) && IsSign(':', ValueChar) && IsSign('{', LBrace)
  {}

  lemma HeadSpells(field: string)
    requires Spells("", []) && Spells(field, [Token(Ident, field)])
    ensures exists ts :: Spells("" + ("@" + (field + (":" + ("" + ("{" + ""))))), ts)
  {
    SignIs();
    hide *;
    SignThen("", '{', LBrace, "", [], []);
    var braced, toks := "" + ("{" + ""), [] + ([Token(LBrace, "{")] + []);
    SignThen(field, ':', ValueChar, braced, [Token(Ident, field)], toks);
    SignThen("", '@', ValueChar, field + (":" + braced), [],
      [Token(Ident, field)] + ([Token(ValueChar, ":")] + toks));
  }

  lemma BraceSeparates(a: string, b: string)
    requires BraceLast(a)
    ensures Separable(a, b)
  {}

  lemma TextStarts(term: string, fields: seq<string>)
    requires fields != []
    ensures exists tail :: (BasicText(term, fields) ==
      ("@" + (fields[0] + (":" + ("" + ("{" + ""))))) + (Braced(term) + tail))
    ensures BasicText(term, fields) != "" && BasicText(term, fields)[0] == '@'
    ensures Closed(BasicText(term, fields))
    decreases |fields|
  {
    hide Braced, Parts;
    var head := "@" + (fields[0] + (":" + ("" + ("{" + ""))));
    TextCons(term, fields);
    assert Part(fields[0], term) == head + (Braced(term) + "}");
    if |fields| > 1 {
      var more := " | " + BasicText(term, fields[1..]);
      TextStarts(term, fields[1..]);
      hide Part, BasicText;
      assert head + (Braced(term) + "}") + more == head + (Braced(term) + ("}" + more));
    }
  }

  lemma RefusedLexing(term: string, fields: seq<string>)
    requires fields != [] && IsIdent(fields[0]) && Lex(Braced(term)).None?
    ensures Parse(BasicText(term, fields)) == SyntaxError
  {
    var head := "@" + (fields[0] + (":" + ("" + ("{" + ""))));
    TextStarts(term, fields);
    var s := BasicText(term, fields);
    TrimNothing(s);
    HeadLexes(fields[0]);
    BracedEnds(term);
    hide *;
    var tail :| s == head + (Braced(term) + tail);
    LexNone(Braced(term), tail);
    BraceSeparates(head, Braced(term) + tail);
    LexAppend(head, Braced(term) + tail);
    ParseUnlexed(s);
  }

  lemma ParseUnlexed(s: string)
    requires TrimSpace(s) == s && s != ""
    requires exists ts :: Lex(s) == Prepend(ts, None)
    ensures Parse(s) == SyntaxError
  {
    hide Lex;
  }

  lemma ParseUnfinished(s: string, ts: seq<Token>)
    requires TrimSpace(s) == s && s != "" && Spells(s, ts)
    requires ParseOr(ts).None? || ParseOr(ts).value.1 != []
    ensures Parse(s) == SyntaxError
  {
    hide Lex, Elide, ParseOr, TrimSpace;
  }

  /** The tokens of a braced term: the opening star, then the guarded rest. */
  lemma BracedIsGuarded(term: string, tame: bool)
    requires tame ==> '\\' !in term
    requires Lex(Braced(term)).Some?
    ensures Guarded(TermToks(term), tame) && Lexed(TermToks(term))
    ensures TextOf(TermToks(term)) == BasicRaw(term)
  {
    BracedEnds(term);
    TermIsGuarded(term, tame);
    LexIsFaithful(Braced(term));
    ElideSpellsStrip(Lex(Braced(term)).value);
    StarFirst(term);
    hide Lex, Elide, Guarded, Classify, Escape, Braced, IsValueKind, WellFormedToken, Strip;
    GuardedStep(Braced(term), Token(Wildcard, "*"), tame);
  }

  lemma StarFirst(term: string)
    ensures var s := Braced(term);
      && Classify(s) == Some(Token(Wildcard, "*")) && s[|"*"|..] == Escape(term) + "*"
      && IsValueKind(Wildcard)
  {
    assert Braced(term)[1..] == Escape(term) + "*";
    assert ['*'] == "*";
    hide Span;
  }

  /** A term with no backslash of its own needs only to lex. */
  lemma TameAccepted(term: string)
    requires '\\' !in term
    ensures Accepted(term) <==> Lex(Braced(term)).Some?
  {
    if Lex(Braced(term)).Some? {
      BracedIsGuarded(term, true);
    }
    hide Lex, Braced;
  }

  /** Whatever is searched for, the query parsed is one leaf a field with the term as its
      value, or a syntax error: no term can add a field, an operator or a parenthesis. */
  lemma ShapeIsFixed(term: string, fields: seq<string>)
    requires fields != [] && AllIdents(fields)
    ensures Parse(BasicText(term, fields)) ==
      if Accepted(term) then Parsed(BasicTree(term, fields)) else SyntaxError
  {
    IdentsTail(fields);
    LexedOrNot(term);
    hide *;
    if Lex(Braced(term)).None? {
      RefusedLexing(term, fields);
    } else {
      var v, s := TermToks(term), BasicText(term, fields);
      BracedIsGuarded(term, false);
      NotEmpty(v);
      SpellsBasic(term, fields, v);
      TrimNothing(s);
      if Accepted(term) {
        ParseAccepted(v, fields);
        ParseSpelled(s, BasicToks(v, fields),
          OrExpr(One(fields[0], TextOf(v)), Ones(fields[1..], TextOf(v))));
        TreeIs(term, fields);
      } else {
        ParseRefused(v, fields);
        ParseUnfinished(s, BasicToks(v, fields));
      }
    }
  }

  lemma TreeIs(term: string, fields: seq<string>)
    requires fields != []
    ensures BasicTree(term, fields) == OrExpr(One(fields[0], BasicRaw(term)), Ones(fields[1..], BasicRaw(term)))
  {}

  lemma NotEmpty(v: seq<Token>)
    requires Guarded(v, false)
    ensures v != []
  {}

  lemma LexedOrNot(term: string)
    ensures Lex(Braced(term)).None? ==> !Accepted(term)
    ensures Lex(Braced(term)).Some? ==>
      && (Accepted(term) <==> AllValueTokens(TermToks(term)))
      && Spells(Braced(term), TermToks(term))
  {
    hide Lex, Elide, Braced;
  }
}

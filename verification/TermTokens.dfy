/** How an escaped term lexes: what keeps it from closing its braces. */
module TermTokens {
  import opened Text
  import opened QueryLexer
  import opened QueryAst
  import opened BasicQuery

  /** Value tokens at both ends, and never two others side by side: what a term's tokens
      always look like, since every special character in it has a backslash before it.
      A tame term, one without a backslash of its own, has value tokens throughout. */
  predicate Guarded(ts: seq<Token>, tame: bool) {
    && ts != [] && IsValueKind(ts[0].kind) && IsValueKind(ts[|ts| - 1].kind)
    && (forall i :: 0 <= i < |ts| - 1 ==> IsValueKind(ts[i].kind) || IsValueKind(ts[i + 1].kind))
    && (tame ==> AllValueTokens(ts))
  }

  predicate GuardedText(s: string, tame: bool) {
    Lex(s).Some? ==> Guarded(Elide(Lex(s).value), tame)
  }

  lemma GuardedCons(t: Token, ts: seq<Token>, tame: bool)
    requires Guarded(ts, tame) && IsValueKind(t.kind)
    ensures Guarded([t] + ts, tame)
    ensures forall d: Token :: Guarded([t] + ([d] + ts), false)
  {
    hide IsValueKind;
    forall d: Token
      ensures Guarded([t] + ([d] + ts), false)
    {
      var us := [t] + ([d] + ts);
      assert us[0] == t && us[1] == d && forall i :: 2 <= i < |us| ==> us[i] == ts[i - 2];
    }
  }

  lemma ElideStep(t: Token, ts: seq<Token>)
    ensures Elide([t] + ts) == if t.kind == Whitespace then Elide(ts) else [t] + Elide(ts)
    ensures IsValueKind(t.kind) ==> t.kind != Whitespace
  {
    assert ([t] + ts)[1..] == ts;
  }

  /** What one token off the front leaves of a text's tokens. */
  lemma LexOne(s: string, t: Token)
    requires s != "" && Classify(s) == Some(t)
    ensures var rest := s[|t.text|..];
      Lex(s) == if Lex(rest).None? then None else Some([t] + Lex(rest).value)
  {
    LexStep(s, t);
  }

  /** One token off the front, kept or elided. */
  lemma GuardedStep(s: string, t: Token, tame: bool)
    requires s != "" && Classify(s) == Some(t) && GuardedText(s[|t.text|..], tame)
    requires IsValueKind(t.kind) || t.kind == Whitespace
    ensures GuardedText(s, tame)
  {
    LexOne(s, t);
    var rest := s[|t.text|..];
    hide Lex, Classify, Guarded, IsValueKind;
    if Lex(rest).Some? {
      ElideStep(t, Lex(rest).value);
      if t.kind != Whitespace {
        GuardedCons(t, Elide(Lex(rest).value), tame);
      }
    }
  }

  lemma SpecialIs(d: char)
    requires Special(d)
    ensures !In(d, Blank) && d != '\\' && !In(d, IdentStart) && !In(d, Digit)
    ensures d == '*' || d == '@' || d == ':' || d == '{' || d == '}' || d == '(' || d == ')' || d == '|' || d == '&'
  {}

  /** A special character always lexes by itself, whatever follows. */
  lemma SpecialAlone(d: char, s: string)
    requires Special(d)
    ensures Classify([d] + s).Some?
    ensures Classify([d] + s).value.text == [d] && Classify([d] + s).value.kind != Whitespace
    ensures ([d] + s)[1..] == s
  {
    SpecialIs(d);
    hide Special, In, Span;
    assert ([d] + s)[0] == d;
  }

  lemma PairClassifies(c: char, more: string)
    requires Special(c) || c == '\\'
    ensures var s := ['\\', c] + more;
      Classify(s) == Some(Token(Escaped, ['\\', c])) && s[2..] == more
  {
    var s := ['\\', c] + more;
    assert s[..2] == ['\\', c];
  }

  /** A pair of backslashes leaves the special character after it bare. */
  lemma GuardedBare(d: char, more: string)
    requires Special(d) && GuardedText(more, false)
    ensures GuardedText(['\\', '\\'] + ([d] + more), false)
  {
    var a, t, bare := Token(Escaped, ['\\', '\\']), Classify([d] + more).value, [d] + more;
    SpecialAlone(d, more);
    PairClassifies('\\', bare);
    LexOne(['\\', '\\'] + bare, a);
    LexOne(bare, t);
    hide Lex, Classify, Guarded, Special, IsValueKind;
    if Lex(more).Some? {
      ElideStep(a, [t] + Lex(more).value);
      ElideStep(t, Lex(more).value);
      assert IsValueKind(a.kind) by { EscapedIsValue(); }
      GuardedCons(a, Elide(Lex(more).value), false);
    }
  }

  lemma EscapedIsValue()
    ensures IsValueKind(Escaped)
  {}

  lemma GuardedPair(c: char, more: string, tame: bool)
    requires (Special(c) || c == '\\') && GuardedText(more, tame)
    ensures GuardedText(['\\', c] + more, tame)
  {
    EscapedIsValue();
    hide *;
    PairClassifies(c, more);
    GuardedStep(['\\', c] + more, Token(Escaped, ['\\', c]), tame);
  }

  /** Every term, braced, lexes to guarded tokens or not at all. */
  lemma {:induction false} TermIsGuarded(term: string, tame: bool)
    requires tame ==> '\\' !in term
    ensures GuardedText(Escape(term) + "*", tame)
    decreases |term|, 1
  {
    hide *;
    if term == "" {
      StarIsGuarded(tame);
      EscapeNothing("*");
    } else {
      EscapeCons(term, "*");
      var more := Escape(term[1..]) + "*";
      if Special(term[0]) {
        TermIsGuarded(term[1..], tame);
        GuardedPair(term[0], more, tame);
      } else if term[0] == '\\' {
        BackslashIsGuarded(term[1..]);
      } else {
        PlainIsGuarded(term, tame);
      }
    }
  }

  lemma StarIsGuarded(tame: bool)
    ensures GuardedText("*", tame)
  {
    LexOne("*", Token(Wildcard, "*"));
    assert "*"[1..] == "";
    ElideStep(Token(Wildcard, "*"), []);
  }

  /** A backslash of the term's own pairs with the next character it is printed with. */
  lemma {:induction false} BackslashIsGuarded(rest: string)
    ensures GuardedText(['\\'] + (Escape(rest) + "*"), false)
    decreases |rest|, 0
  {
    hide *;
    var more := Escape(rest) + "*";
    if rest == "" {
      EscapeNothing("*");
      LastBackslash();
    } else {
      EscapeCons(rest, "*");
      var s := Escape(rest[1..]) + "*";
      if Special(rest[0]) {
        TermIsGuarded(rest[1..], false);
        GuardedBare(rest[0], s);
        assert ['\\'] + more == ['\\', '\\'] + ([rest[0]] + s);
      } else if rest[0] == '\\' {
        TermIsGuarded(rest[1..], false);
        GuardedPair('\\', s, false);
        assert ['\\'] + more == ['\\', '\\'] + s;
      } else {
        UnpairedBackslash(rest[0], s);
        assert ['\\'] + more == ['\\', rest[0]] + s;
      }
    }
  }

  /** At the very end it escapes the closing star. */
  lemma LastBackslash()
    ensures GuardedText(['\\'] + "*", false)
  {
    PairClassifies('*', "");
    assert ['\\'] + "*" == ['\\', '*'] + "";
    LexOne(['\\', '*'] + "", Token(Escaped, ['\\', '*']));
    ElideStep(Token(Escaped, ['\\', '*']), []);
  }

  lemma UnpairedBackslash(c: char, s: string)
    requires c != '\\' && !Special(c)
    ensures GuardedText(['\\', c] + s, false)
  {
    var u := ['\\', c] + s;
    assert u[0] == '\\' && u[1] == c && c !in ESCAPABLE;
  }

  /** A character the escaping and the lexer both leave as it is. */
  predicate Plain(c: char) {
    c != '\\' && !Special(c)
  }

  lemma PlainHead(term: string)
    requires Plain((Escape(term) + "*")[0])
    ensures term != "" && Escape(term) + "*" == [term[0]] + (Escape(term[1..]) + "*")
  {
    if term != "" {
      EscapeCons(term, "*");
    } else {
      EscapeNothing("*");
    }
    hide Escape;
  }

  lemma PlainTail(a: char, v: string, n: nat)
    requires n < |[a] + v|
    requires forall i :: 0 <= i < n + 1 ==> Plain(([a] + v)[i])
    ensures forall i :: 0 <= i < n ==> Plain(v[i])
    ensures ([a] + v)[n + 1..] == v[n..]
  {
    hide Plain;
    assert forall i :: 0 <= i < n ==> v[i] == ([a] + v)[i + 1];
  }

  lemma {:induction false} PlainPrefix(term: string, n: nat)
    requires n <= |Escape(term) + "*"|
    requires forall i :: 0 <= i < n ==> Plain((Escape(term) + "*")[i])
    ensures n <= |term| && (Escape(term) + "*")[n..] == Escape(term[n..]) + "*"
  {
    hide *;
    if n == 0 {
      assert term[0..] == term;
    } else {
      PlainHead(term);
      PlainTail(term[0], Escape(term[1..]) + "*", n - 1);
      PlainPrefix(term[1..], n - 1);
      assert term[1..][n - 1..] == term[n..];
    }
  }

  /** A token that starts plain is plain throughout, so it is the term's own. */
  lemma {:induction false} PlainIsGuarded(term: string, tame: bool)
    requires term != "" && term[0] != '\\' && !Special(term[0])
    requires tame ==> '\\' !in term
    ensures GuardedText(Escape(term) + "*", tame)
    decreases |term|, 0
  {
    EscapeCons(term, "*");
    var u := Escape(term) + "*";
    hide Escape, Classify, Guarded, Special, Lex, IsValueKind;
    if Classify(u).None? {
      NoFirstToken(u);
    } else {
      var t := Classify(u).value;
      PlainTokenText(u);
      PlainPrefix(term, |t.text|);
      TermIsGuarded(term[|t.text|..], tame);
      GuardedStep(u, t, tame);
    }
  }

  lemma NoFirstToken(u: string)
    requires u != "" && Classify(u).None?
    ensures Lex(u).None?
  {
    hide Classify;
  }

  lemma PlainTokenText(u: string)
    requires u != "" && Plain(u[0]) && Classify(u).Some?
    ensures var t := Classify(u).value;
      && (IsValueKind(t.kind) || t.kind == Whitespace)
      && 0 < |t.text| <= |u|
      && forall i :: 0 <= i < |t.text| ==> Plain(u[i])
  {
    ClassifyIsWellFormed(u);
    PlainFirst(u);
    var t := Classify(u).value;
    hide Classify;
    assert t.text[0] == u[0];
    TokenIsPlain(t);
    hide *;
    assert forall i :: 0 <= i < |t.text| ==> u[i] == t.text[i];
  }

  lemma PlainFirst(u: string)
    requires u != "" && Plain(u[0]) && Classify(u).Some?
    ensures var t := Classify(u).value;
      t.text <= u && t.text != "" && (IsValueKind(t.kind) || t.kind == Whitespace)
  {
    hide Span;
  }

  lemma TokenIsPlain(t: Token)
    requires WellFormedToken(t) && Plain(t.text[0])
    ensures forall i :: 0 <= i < |t.text| ==> Plain(t.text[i])
  {}
}

/** Basic search: a term is escaped and printed as an advanced query, then parsed like any
    other. Whatever the term holds, it cannot change the shape of that query. */
module BasicQuery {
  import opened Text
  import opened QueryLexer
  import opened QueryAst

  /** What escapeQueryValue puts a backslash before; a backslash itself is not among them. */
  const ESCAPED: string := "{}|&()@:*"

  predicate Special(c: char) {
    c in ESCAPED
  }

  function Escape(s: string): string {
    if s == "" then ""
    else (if Special(s[0]) then ['\\', s[0]] else [s[0]]) + Escape(s[1..])
  }

  function Braced(term: string): string {
    "*" + Escape(term) + "*"
  }

  function Part(field: string, term: string): string {
    "@" + field + ":{" + Braced(term) + "}"
  }

  function Parts(term: string, fields: seq<string>): seq<string> {
    seq(|fields|, i requires 0 <= i < |fields| => Part(fields[i], term))
  }

  function BasicText(term: string, fields: seq<string>): string {
    Join(Parts(term, fields), " | ")
  }

  method BuildBasicQuery(term: string, fields: seq<string>) returns (query: string)
    ensures query == BasicText(term, fields)
  {
    if |fields| == 0 {
      return "";
    }
    var escapedTerm := Escape(term);
    var parts := [];
    for i := 0 to |fields|
      invariant parts == Parts(term, fields[..i])
    {
      parts := parts + ["@" + fields[i] + ":{*" + escapedTerm + "*}"];
      assert ":{" + ("*" + escapedTerm + "*") + "}" == ":{*" + escapedTerm + "*}";
      assert parts[i] == Part(fields[i], term);
      assert fields[..i + 1] == fields[..i] + [fields[i]];
    }
    assert fields[..|fields|] == fields;
    if |parts| == 1 {
      return parts[0];
    }
    query := Join(parts, " | ");
  }

  lemma EscapeUnfold(s: string)
    requires s != ""
    ensures Escape(s) == (if Special(s[0]) then ['\\', s[0]] else [s[0]]) + Escape(s[1..])
  {
    hide Special;
  }

  lemma EscapeCons(s: string, rest: string)
    requires s != ""
    ensures var more := Escape(s[1..]) + rest;
      Escape(s) + rest == if Special(s[0]) then ['\\', s[0]] + more else [s[0]] + more
    ensures s == [s[0]] + s[1..]
  {
    hide *;
    EscapeUnfold(s);
    var more := Escape(s[1..]);
    if Special(s[0]) {
      assert (['\\', s[0]] + more) + rest == ['\\', s[0]] + (more + rest);
    } else {
      assert ([s[0]] + more) + rest == [s[0]] + (more + rest);
    }
  }

  lemma EscapeNothing(rest: string)
    ensures Escape("") + rest == rest
  {}

  lemma UnescapedStep(c: char, more: string)
    ensures Unescaped(['\\', c] + more, false) == [c] + Unescaped(more, false)
    ensures c != '\\' ==> Unescaped([c] + more, false) == [c] + Unescaped(more, false)
  {
    assert (['\\', c] + more)[1..] == [c] + more;
    assert ([c] + more)[1..] == more;
  }

  /** Unescaping undoes escaping on every text without a backslash. */
  lemma {:induction false} UnescapeEscape(s: string, rest: string)
    requires '\\' !in s
    ensures Unescaped(Escape(s) + rest, false) == s + Unescaped(rest, false)
  {
    hide *;
    if s == "" {
      EscapeNothing(rest);
      assert s + Unescaped(rest, false) == Unescaped(rest, false);
    } else {
      UnescapeEscape(s[1..], rest);
      EscapeCons(s, rest);
      UnescapedStep(s[0], Escape(s[1..]) + rest);
      assert s + Unescaped(rest, false) == [s[0]] + (s[1..] + Unescaped(rest, false));
    }
  }

  /** The tokens a braced term comes to, blanks elided. */
  function TermToks(term: string): seq<Token>
    requires Lex(Braced(term)).Some?
  {
    Elide(Lex(Braced(term)).value)
  }

  /** Whether the parser takes a braced term for one value. */
  predicate Accepted(term: string) {
    Lex(Braced(term)).Some? && AllValueTokens(TermToks(term))
  }
}

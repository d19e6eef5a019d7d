/** The text Build emits, read back by SQL's own grammar, is the condition the query tree
    stands for: one primary, whatever surrounds it. */
module Compile {
  import opened Text
  import opened QueryAst
  import opened Builder
  import opened Leaves
  import Sql

  /** Columns that read as themselves. */
  predicate GoodColumn(c: string) {
    Sql.IsWord(c) && c !in Sql.KEYWORDS && c[0] != '$' && c[0] != '\''
  }

  predicate GoodFields(fields: Fields) {
    forall f :: f in fields ==> GoodColumn(fields[f].column)
  }

  lemma ShippedFieldsAreGood()
    ensures GoodFields(SSH_FIELDS) && GoodFields(GPG_FIELDS)
  {
    SshFieldsAreGood();
    GpgFieldsAreGood();
  }

  lemma KeyColumnsAreGood()
    ensures GoodColumn("pk.id") && GoodColumn("pk.fingerprint")
    ensures GoodColumn("sm.algorithm") && GoodColumn("sm.comment") && GoodColumn("sm.key_bits")
  {}

  lemma SourceColumnsAreGood()
    ensures GoodColumn("s.username") && GoodColumn("s.provider")
    ensures GoodColumn("s.user_id") && GoodColumn("s.uri")
  {}

  lemma GpgColumnsAreGood()
    ensures GoodColumn("gm.algorithm") && GoodColumn("gm.key_bits")
    ensures GoodColumn("gm.user_ids") && GoodColumn("gm.capabilities")
  {}

  lemma SshFieldsAreGood()
    ensures GoodFields(SSH_FIELDS)
  {
    KeyColumnsAreGood();
    SourceColumnsAreGood();
    hide GoodColumn;
  }

  lemma GpgFieldsAreGood()
    ensures GoodFields(GPG_FIELDS)
  {
    KeyColumnsAreGood();
    GpgColumnsAreGood();
    SourceColumnsAreGood();
    hide GoodColumn;
  }

  /** The condition a tree stands for, its leaves numbered from n in reading order. */

  function Mapping(fields: Fields, name: string): FieldMapping {
    if name in fields then fields[name] else FieldMapping("", false)
  }

  function LeafCond(m: FieldMapping, wildcard: bool, n: nat): Sql.Cond {
    if m.isArray then
      if wildcard then Sql.ExistsLike(Sql.Column(m.column), Sql.Param(n))
      else Sql.EqualAny(Sql.Param(n), Sql.Column(m.column))
    else if wildcard then Sql.Like(Sql.Column(m.column), Sql.Param(n))
    else Sql.Equal(Sql.Column(m.column), Sql.Param(n))
  }

  function CondOr(fields: Fields, e: OrExpr, n: nat): Sql.Cond
    decreases e, 1
  {
    CondAnds(fields, CondAnd(fields, e.left, n), e.right, n + |LeavesAnd(e.left)|)
  }

  function CondAnds(fields: Fields, acc: Sql.Cond, xs: seq<AndExpr>, n: nat): Sql.Cond
    decreases xs, 0
  {
    if xs == [] then acc
    else
      var front, back := xs[..|xs| - 1], xs[|xs| - 1];
      Sql.Or(CondAnds(fields, acc, front, n), CondAnd(fields, back, n + |LeavesAnds(front)|))
  }

  function CondAnd(fields: Fields, a: AndExpr, n: nat): Sql.Cond
    decreases a, 1
  {
    CondUnaries(fields, CondUnary(fields, a.left, n), a.right, n + |LeavesUnary(a.left)|)
  }

  function CondUnaries(fields: Fields, acc: Sql.Cond, us: seq<Unary>, n: nat): Sql.Cond
    decreases us, 0
  {
    if us == [] then acc
    else
      var front, back := us[..|us| - 1], us[|us| - 1];
      Sql.And(CondUnaries(fields, acc, front, n), CondUnary(fields, back, n + |LeavesUnaries(front)|))
  }

  function CondUnary(fields: Fields, u: Unary, n: nat): Sql.Cond
    decreases u, 1
  {
    match u
    case SubExpr(e) => CondOr(fields, e, n)
    case Leaf(f) => LeafCond(Mapping(fields, f.name), BareStar(f.raw, false), n)
  }

  /** The parts after the first of a joined text, as tokens. */
  function TailToks(parts: seq<string>, word: string): seq<Sql.Token> {
    if parts == [] then []
    else
      TailToks(parts[..|parts| - 1], word) + ([Sql.Word(word)] + Sql.Scan(parts[|parts| - 1]))
  }

  lemma ScanSeparator(word: string)
    requires Sql.IsWord(word)
    ensures Sql.Scan(" " + word + " ") == [Sql.Word(word)]
  {
    Sql.ScanWord(word);
    Sql.ScanAppend(" ", word);
    Sql.ScanAppend(" " + word, " ");
    assert Sql.Scan(" ") == Sql.Scan("");
  }

  lemma {:induction false} ScanJoin(first: string, parts: seq<string>, word: string)
    requires Sql.IsWord(word)
    ensures Sql.Scan(Join([first] + parts, " " + word + " ")) == Sql.Scan(first) + TailToks(parts, word)
  {
    if parts == [] {
      assert [first] + parts == [first];
    } else {
      var front, back := parts[..|parts| - 1], parts[|parts| - 1];
      ScanJoin(first, front, word);
      ScanSeparator(word);
      var sep := " " + word + " ";
      assert [first] + parts == ([first] + front) + [back];
      JoinSnoc([first] + front, back, sep);
      var s := Join([first] + front, sep);
      JoinScan(s, sep, back);
      hide Sql.Scan, Join;
      assert Sql.Scan(s) + [Sql.Word(word)] + Sql.Scan(back)
        == Sql.Scan(first) + (TailToks(front, word) + ([Sql.Word(word)] + Sql.Scan(back)));
    }
  }

  lemma JoinScan(a: string, sep: string, b: string)
    requires sep != "" && sep[0] == ' ' && sep[|sep| - 1] == ' '
    ensures Sql.Scan(a + sep + b) == Sql.Scan(a) + Sql.Scan(sep) + Sql.Scan(b)
  {
    Sql.ScanAppend(a, sep);
    Sql.ScanAppend(a + sep, b);
  }

  lemma ScanGroup(inner: string)
    ensures Sql.Scan("(" + inner + ")") == [Sql.Open] + (Sql.Scan(inner) + [Sql.Close])
  {
    Sql.ScanAppend("(" + inner, ")");
    assert Sql.Scan(")") == [Sql.Close] + Sql.Scan("");
    assert ("(" + inner)[1..] == inner;
  }

  /** Leaves. */

  lemma PlaceholderReads(n: nat)
    ensures Sql.IsWord(Placeholder(n))
    ensures Sql.ReadOperand(Placeholder(n)) == Some(Sql.Param(n))
  {
    AtoiItoa(n);
    assert Placeholder(n)[1..] == Itoa(n);
  }

  lemma ColumnReads(c: string)
    requires GoodColumn(c)
    ensures Sql.ReadOperand(c) == Some(Sql.Column(c))
  {}

  lemma ScanWordThen(w: string, s: string)
    requires Sql.IsWord(w)
    ensures Sql.Scan(w + (" " + s)) == [Sql.Word(w)] + Sql.Scan(s)
    ensures Sql.Scan(w + ("(" + s)) == [Sql.Word(w)] + ([Sql.Open] + Sql.Scan(s))
    ensures Sql.Scan(w + (")" + s)) == [Sql.Word(w)] + ([Sql.Close] + Sql.Scan(s))
  {
    Sql.ScanWord(w);
    Sql.ScanAppend(w, " " + s);
    Sql.ScanAppend(w, "(" + s);
    Sql.ScanAppend(w, ")" + s);
    ScanSign(s);
  }

  lemma ScanSign(s: string)
    ensures Sql.Scan(" " + s) == Sql.Scan(s)
    ensures Sql.Scan("(" + s) == [Sql.Open] + Sql.Scan(s)
    ensures Sql.Scan(")" + s) == [Sql.Close] + Sql.Scan(s)
  {
    assert (" " + s)[1..] == s && ("(" + s)[1..] == s && (")" + s)[1..] == s;
  }

  /** Words, each with a blank after it, then a tail. */
  function After(words: seq<string>, tail: string): string {
    if words == [] then tail else words[0] + (" " + After(words[1..], tail))
  }

  function WordToks(words: seq<string>): seq<Sql.Token> {
    seq(|words|, i requires 0 <= i < |words| => Sql.Word(words[i]))
  }

  lemma {:induction false} ScanAfter(words: seq<string>, tail: string)
    requires forall i :: 0 <= i < |words| ==> Sql.IsWord(words[i])
    ensures Sql.Scan(After(words, tail)) == WordToks(words) + Sql.Scan(tail)
  {
    if words == [] {
      assert WordToks(words) + Sql.Scan(tail) == Sql.Scan(tail);
    } else {
      ScanAfter(words[1..], tail);
      var more := After(words[1..], tail);
      ScanWordThen(words[0], more);
      hide Sql.Scan, Sql.IsWord;
      assert WordToks(words) == [Sql.Word(words[0])] + WordToks(words[1..]);
    }
  }

  lemma AfterTwo(a: string, b: string, tail: string)
    ensures After([a, b], tail) == a + (" " + (b + (" " + tail)))
    ensures WordToks([a, b]) == [Sql.Word(a), Sql.Word(b)]
  {
    assert [a, b][1..] == [b] && [b][1..] == [];
    assert After([b], tail) == b + (" " + After([], tail));
  }

  /** A word in parentheses right after another. */
  lemma ScanCall(f: string, w: string, tail: string)
    requires Sql.IsWord(f) && Sql.IsWord(w)
    ensures Sql.Scan(f + ("(" + (w + (")" + tail)))) ==
      [Sql.Word(f), Sql.Open, Sql.Word(w), Sql.Close] + Sql.Scan(tail)
  {
    ScanWordThen(w, tail);
    ScanWordThen(f, w + (")" + tail));
    hide *;
    FourToks(Sql.Word(f), Sql.Open, Sql.Word(w), Sql.Close, Sql.Scan(tail));
  }

  lemma FourToks(a: Sql.Token, b: Sql.Token, c: Sql.Token, d: Sql.Token, rest: seq<Sql.Token>)
    ensures [a] + ([b] + ([c] + ([d] + rest))) == [a, b, c, d] + rest
  {}

  lemma ThreeText(a: string, op: string, b: string)
    ensures After([a, op], b) == a + (" " + op + " ") + b
  {
    AfterTwo(a, op, b);
  }

  lemma ScanThree(a: string, op: string, b: string)
    requires Sql.IsWord(a) && Sql.IsWord(op) && Sql.IsWord(b)
    ensures Sql.Scan(a + (" " + op + " ") + b) == [Sql.Word(a), Sql.Word(op)] + [Sql.Word(b)]
  {
    hide Sql.Scan, After, WordToks, Sql.IsWord;
    ScanAfter([a, op], b);
    AfterTwo(a, op, b);
    ThreeText(a, op, b);
    Sql.ScanWord(b);
  }

  lemma PrimaryScalar(column: string, op: string, n: nat, rest: seq<Sql.Token>)
    requires GoodColumn(column) && (op == "=" || op == "LIKE")
    ensures Sql.ParsePrimary(Sql.Scan(column + (" " + op + " ") + Placeholder(n)) + rest) == Some((
      if op == "=" then Sql.Equal(Sql.Column(column), Sql.Param(n))
      else Sql.Like(Sql.Column(column), Sql.Param(n)), rest))
  {
    PlaceholderReads(n);
    ColumnReads(column);
    ScanThree(column, op, Placeholder(n));
    ParseThree(Sql.Word(column), Sql.Word(op), Sql.Word(Placeholder(n)), rest);
    assert Placeholder(n)[0] == '$';
  }

  lemma ParseThree(a: Sql.Token, op: Sql.Token, b: Sql.Token, rest: seq<Sql.Token>)
    requires a.Word? && op.Word? && b.Word? && a.text != "EXISTS" && b.text != "ANY"
    requires op.text == "=" || op.text == "LIKE"
    requires Sql.ReadOperand(a.text).Some? && Sql.ReadOperand(b.text).Some?
    ensures var l, r := Sql.ReadOperand(a.text).value, Sql.ReadOperand(b.text).value;
      Sql.ParsePrimary([a, op] + [b] + rest) ==
        Some((if op.text == "=" then Sql.Equal(l, r) else Sql.Like(l, r), rest))
  {
    hide Sql.ReadOperand;
    var ts := [a, op] + [b] + rest;
    assert ts[3..] == rest;
  }

  lemma Words()
    ensures Sql.IsWord("=") && Sql.IsWord("ANY") && Sql.IsWord("OR") && Sql.IsWord("AND")
    ensures Sql.IsWord("EXISTS") && Sql.IsWord("SELECT") && Sql.IsWord("1") && Sql.IsWord("FROM")
    ensures Sql.IsWord("unnest") && Sql.IsWord("AS") && Sql.IsWord("elem") && Sql.IsWord("WHERE")
    ensures Sql.IsWord("LIKE")
    ensures forall i :: 0 <= i < |SELECT_WORDS| ==> Sql.IsWord(SELECT_WORDS[i])
    ensures forall i :: 0 <= i < |LIKE_WORDS| ==> Sql.IsWord(LIKE_WORDS[i])
  {}

  lemma ScanAny(p: string, column: string)
    requires Sql.IsWord(p) && Sql.IsWord(column)
    ensures Sql.Scan(p + " = ANY(" + column + ")") ==
      [Sql.Word(p), Sql.Word("="), Sql.Word("ANY"), Sql.Open, Sql.Word(column), Sql.Close]
  {
    Words();
    Sql.ScanNothing();
    AnyTextIs(p, column);
    var call := "ANY" + ("(" + (column + (")" + "")));
    AfterTwo(p, "=", call);
    hide *;
    ScanAfter([p, "="], call);
    ScanCall("ANY", column, "");
    assert [Sql.Word(p), Sql.Word("=")]
      + ([Sql.Word("ANY"), Sql.Open, Sql.Word(column), Sql.Close] + []) ==
      [Sql.Word(p), Sql.Word("="), Sql.Word("ANY"), Sql.Open, Sql.Word(column), Sql.Close];
  }

  lemma AnyTextIs(p: string, column: string)
    ensures p + " = ANY(" + column + ")" == After([p, "="], "ANY" + ("(" + (column + (")" + ""))))
  {
    AfterTwo(p, "=", "ANY" + ("(" + (column + (")" + ""))));
    hide After;
    assert " = ANY(" == " " + "=" + " " + "ANY" + "(";
  }

  lemma ParseAny(a: string, column: string, rest: seq<Sql.Token>)
    requires a != "EXISTS" && Sql.ReadOperand(a).Some? && Sql.ReadOperand(column).Some?
    ensures Sql.ParsePrimary(
      [Sql.Word(a), Sql.Word("="), Sql.Word("ANY"), Sql.Open, Sql.Word(column), Sql.Close] + rest) ==
      Some((Sql.EqualAny(Sql.ReadOperand(a).value, Sql.ReadOperand(column).value), rest))
  {
    hide Sql.ReadOperand;
    var ts := [Sql.Word(a), Sql.Word("="), Sql.Word("ANY"), Sql.Open, Sql.Word(column), Sql.Close] + rest;
    assert ts[6..] == rest;
  }

  const EXISTS_HEAD: seq<Sql.Token> :=
    [Sql.Word("EXISTS"), Sql.Open, Sql.Word("SELECT"), Sql.Word("1"), Sql.Word("FROM"), Sql.Word("unnest")]

  const ELEM_LIKE: seq<Sql.Token> :=
    [Sql.Word("AS"), Sql.Word("elem"), Sql.Word("WHERE"), Sql.Word("elem"), Sql.Word("LIKE")]

  /** The text of an array column's LIKE, word by word. */

  const SELECT_WORDS: seq<string> := ["SELECT", "1", "FROM"]

  const LIKE_WORDS: seq<string> := ["AS", "elem", "WHERE", "elem", "LIKE"]

  lemma SelectText(tail: string)
    ensures After(["EXISTS"], "(" + After(SELECT_WORDS, "unnest" + ("(" + tail)))
      == "EXISTS (SELECT 1 FROM unnest(" + tail
    ensures WordToks(["EXISTS"]) == [Sql.Word("EXISTS")]
    ensures WordToks(SELECT_WORDS) == [Sql.Word("SELECT"), Sql.Word("1"), Sql.Word("FROM")]
  {
    var s := "unnest" + ("(" + tail);
    AfterTwo("1", "FROM", s);
    assert SELECT_WORDS[1..] == ["1", "FROM"];
    assert After(SELECT_WORDS, s) == "SELECT" + (" " + ("1" + (" " + ("FROM" + (" " + s)))));
    var q := "(" + After(SELECT_WORDS, s);
    assert ["EXISTS"][1..] == [];
    assert After(["EXISTS"], q) == "EXISTS" + (" " + q);
    hide After;
    assert "EXISTS (SELECT 1 FROM unnest(" ==
      "EXISTS" + (" " + ("(" + ("SELECT" + (" " + ("1" + (" " + ("FROM" + (" " + ("unnest" + "(")))))))));
  }

  lemma LikeText(tail: string)
    ensures ")" + (" " + After(LIKE_WORDS, tail)) == ") AS elem WHERE elem LIKE " + tail
    ensures WordToks(LIKE_WORDS) == ELEM_LIKE
  {
    AfterTwo("elem", "LIKE", tail);
    var w3 := ["WHERE", "elem", "LIKE"];
    var w4 := ["elem"] + w3;
    assert LIKE_WORDS == ["AS"] + w4;
    assert LIKE_WORDS[1..] == w4 && w4[1..] == w3 && w3[1..] == ["elem", "LIKE"];
    var s := After(["elem", "LIKE"], tail);
    assert After(w3, tail) == "WHERE" + (" " + s);
    assert After(w4, tail) == "elem" + (" " + After(w3, tail));
    assert After(LIKE_WORDS, tail) == "AS" + (" " + After(w4, tail));
    assert s == "elem" + (" " + ("LIKE" + (" " + tail)));
    hide After;
    assert ") AS elem WHERE elem LIKE " ==
      ")" + (" " + ("AS" + (" " + ("elem" + (" " + ("WHERE" + (" " + ("elem" + (" " + ("LIKE" + " "))))))))));
  }

  lemma ExistsTextIs(column: string, p: string)
    ensures "EXISTS (SELECT 1 FROM unnest(" + column + ") AS elem WHERE elem LIKE " + p + ")" ==
      After(["EXISTS"], "(" + After(SELECT_WORDS, "unnest" + ("(" + (column + (")" + (" "
        + After(LIKE_WORDS, p + (")" + ""))))))))
  {
    LikeText(p + (")" + ""));
    var tail := column + (")" + (" " + After(LIKE_WORDS, p + (")" + ""))));
    SelectText(tail);
    hide After;
    assert tail == column + (") AS elem WHERE elem LIKE " + (p + (")" + "")));
  }

  lemma ScanExists(column: string, p: string)
    requires Sql.IsWord(p) && Sql.IsWord(column)
    ensures Sql.Scan("EXISTS (SELECT 1 FROM unnest(" + column + ") AS elem WHERE elem LIKE " + p + ")") ==
      EXISTS_HEAD + ([Sql.Open, Sql.Word(column), Sql.Close] + (ELEM_LIKE + [Sql.Word(p), Sql.Close]))
  {
    Words();
    ExistsTextIs(column, p);
    LikeText("");
    SelectText("");
    Sql.ScanNothing();
    var close := p + (")" + "");
    var like := After(LIKE_WORDS, close);
    var call := "unnest" + ("(" + (column + (")" + (" " + like))));
    var select := After(SELECT_WORDS, call);
    hide *;
    ScanWordThen(p, "");
    ScanAfter(LIKE_WORDS, close);
    ScanSign(like);
    ScanCall("unnest", column, " " + like);
    ScanAfter(SELECT_WORDS, call);
    ScanSign(select);
    ScanAfter(["EXISTS"], "(" + select);
    ExistsToks(Sql.Word(column), ELEM_LIKE + ([Sql.Word(p)] + ([Sql.Close] + [])));
    assert [Sql.Word(p)] + ([Sql.Close] + []) == [Sql.Word(p), Sql.Close];
  }

  lemma ExistsToks(c: Sql.Token, tail: seq<Sql.Token>)
    ensures [Sql.Word("EXISTS")] + ([Sql.Open] + ([Sql.Word("SELECT"), Sql.Word("1"), Sql.Word("FROM")]
      + ([Sql.Word("unnest"), Sql.Open, c, Sql.Close] + tail))) ==
      EXISTS_HEAD + ([Sql.Open, c, Sql.Close] + tail)
  {}

  lemma ParseExistsToks(column: string, p: string, rest: seq<Sql.Token>)
    requires Sql.ReadOperand(column).Some? && Sql.ReadOperand(p).Some?
    ensures Sql.ParsePrimary(EXISTS_HEAD
      + ([Sql.Open, Sql.Word(column), Sql.Close] + (ELEM_LIKE + [Sql.Word(p), Sql.Close])) + rest) ==
      Some((Sql.ExistsLike(Sql.ReadOperand(column).value, Sql.ReadOperand(p).value), rest))
  {
    hide Sql.ReadOperand, Sql.ParseOr, Sql.ParseComparison;
    var ts := EXISTS_HEAD
      + ([Sql.Open, Sql.Word(column), Sql.Close] + (ELEM_LIKE + [Sql.Word(p), Sql.Close])) + rest;
    assert ts[..6] == EXISTS_HEAD;
    assert ts[9..14] == ELEM_LIKE;
    assert ts[16..] == rest;
  }

  /** A leaf's text, in front of anything, reads as the leaf's comparison. */
  lemma PrimaryLeaf(m: FieldMapping, wildcard: bool, n: nat, rest: seq<Sql.Token>)
    requires GoodColumn(m.column)
    ensures Sql.ParsePrimary(Sql.Scan(LeafText(m, wildcard, n)) + rest) ==
      Some((LeafCond(m, wildcard, n), rest))
  {
    var c, p := m.column, Placeholder(n);
    PlaceholderReads(n);
    ColumnReads(c);
    PlaceholderIsNoKeyword(n);
    if m.isArray && wildcard {
      ScanExists(c, p);
      ParseExistsToks(c, p, rest);
    } else if m.isArray {
      ScanAny(p, c);
      ParseAny(p, c, rest);
    } else if wildcard {
      PrimaryScalar(c, "LIKE", n, rest);
      assert " " + "LIKE" + " " == " LIKE ";
    } else {
      PrimaryScalar(c, "=", n, rest);
      assert " " + "=" + " " == " = ";
    }
  }

  lemma PlaceholderIsNoKeyword(n: nat)
    ensures Placeholder(n) != "EXISTS" && Placeholder(n) != "ANY"
  {
    assert Placeholder(n)[0] == '$';
  }
}

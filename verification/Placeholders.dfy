/** The placeholders of a clause: each of $n, $n+1, ... once, in the leaves' reading order. */
module Placeholders {
  import opened QueryAst
  import opened Builder
  import opened Leaves
  import opened Compile
  import opened ReadBack
  import Sql

  function Params(ts: seq<Sql.Token>): seq<nat> {
    if ts == [] then [] else ParamOf(ts[0]) + Params(ts[1..])
  }

  function ParamOf(t: Sql.Token): seq<nat> {
    match t
    case Word(w) => (match Sql.ReadOperand(w) case Some(Param(i)) => [i] case _ => [])
    case _ => []
  }

  function Range(n: nat, k: nat): seq<nat> {
    seq(k, i requires 0 <= i < k => n + i)
  }

  lemma RangeAppend(n: nat, j: nat, k: nat)
    ensures Range(n, j) + Range(n + j, k) == Range(n, j + k)
    ensures Range(n, 0) == [] && Range(n, 1) == [n]
  {}

  lemma {:induction false} ParamsAppend(a: seq<Sql.Token>, b: seq<Sql.Token>)
    ensures Params(a + b) == Params(a) + Params(b)
  {
    hide ParamOf;
    if a == [] {
      assert a + b == b;
    } else {
      assert (a + b)[1..] == a[1..] + b;
      ParamsAppend(a[1..], b);
    }
  }

  lemma ParamsOne(t: Sql.Token)
    ensures Params([t]) == ParamOf(t)
  {
    hide ParamOf;
    assert [t][1..] == [];
  }

  lemma {:induction false} ParamsNone(ts: seq<Sql.Token>)
    requires forall i :: 0 <= i < |ts| ==> ParamOf(ts[i]) == []
    ensures Params(ts) == []
  {
    hide ParamOf;
    if ts != [] {
      ParamsNone(ts[1..]);
    }
  }

  lemma WordsAreNoParams()
    ensures forall i :: 0 <= i < |EXISTS_HEAD| ==> ParamOf(EXISTS_HEAD[i]) == []
    ensures forall i :: 0 <= i < |ELEM_LIKE| ==> ParamOf(ELEM_LIKE[i]) == []
    ensures ParamOf(Sql.Open) == [] && ParamOf(Sql.Close) == []
    ensures ParamOf(Sql.Word("=")) == [] && ParamOf(Sql.Word("ANY")) == [] && ParamOf(Sql.Word("LIKE")) == []
    ensures ParamOf(Sql.Word("OR")) == [] && ParamOf(Sql.Word("AND")) == []
  {}

  lemma PlaceholderIsParam(n: nat)
    ensures ParamOf(Sql.Word(Placeholder(n))) == [n]
  {
    PlaceholderReads(n);
    hide Placeholder;
  }

  lemma ColumnIsNoParam(c: string)
    requires GoodColumn(c)
    ensures ParamOf(Sql.Word(c)) == []
  {
    ColumnReads(c);
    hide GoodColumn;
  }

  lemma ParamsSkip(ts: seq<Sql.Token>, rest: seq<Sql.Token>)
    requires forall i :: 0 <= i < |ts| ==> ParamOf(ts[i]) == []
    ensures Params(ts + rest) == Params(rest)
  {
    hide *;
    ParamsNone(ts);
    ParamsAppend(ts, rest);
  }

  lemma ParamsExists(column: string, n: nat)
    requires GoodColumn(column)
    ensures Params(EXISTS_HEAD + ([Sql.Open, Sql.Word(column), Sql.Close]
      + (ELEM_LIKE + [Sql.Word(Placeholder(n)), Sql.Close]))) == [n]
  {
    WordsAreNoParams();
    PlaceholderIsParam(n);
    ColumnIsNoParam(column);
    hide *;
    var last := [Sql.Word(Placeholder(n)), Sql.Close];
    ParamsSkip(EXISTS_HEAD, [Sql.Open, Sql.Word(column), Sql.Close] + (ELEM_LIKE + last));
    ParamsSkip([Sql.Open, Sql.Word(column), Sql.Close], ELEM_LIKE + last);
    ParamsSkip(ELEM_LIKE, last);
    ParamsLast(Sql.Word(Placeholder(n)));
  }

  lemma ParamsLast(t: Sql.Token)
    ensures Params([t, Sql.Close]) == ParamOf(t)
  {
    assert [t, Sql.Close][1..] == [Sql.Close] && [Sql.Close][1..] == [];
  }

  lemma ParamsAny(column: string, n: nat)
    requires GoodColumn(column)
    ensures Params([Sql.Word(Placeholder(n)), Sql.Word("="), Sql.Word("ANY"), Sql.Open, Sql.Word(column),
      Sql.Close]) == [n]
  {
    WordsAreNoParams();
    PlaceholderIsParam(n);
    ColumnIsNoParam(column);
    hide *;
    var tail := [Sql.Word("="), Sql.Word("ANY"), Sql.Open, Sql.Word(column), Sql.Close];
    ParamsNone(tail);
    ParamsOne(Sql.Word(Placeholder(n)));
    ParamsAppend([Sql.Word(Placeholder(n))], tail);
    assert [Sql.Word(Placeholder(n))] + tail ==
      [Sql.Word(Placeholder(n)), Sql.Word("="), Sql.Word("ANY"), Sql.Open, Sql.Word(column), Sql.Close];
  }

  lemma ParamsThree(column: string, op: string, n: nat)
    requires GoodColumn(column) && ParamOf(Sql.Word(op)) == []
    ensures Params([Sql.Word(column), Sql.Word(op), Sql.Word(Placeholder(n))]) == [n]
  {
    PlaceholderIsParam(n);
    ColumnIsNoParam(column);
    hide *;
    var front := [Sql.Word(column), Sql.Word(op)];
    ParamsNone(front);
    ParamsOne(Sql.Word(Placeholder(n)));
    ParamsAppend(front, [Sql.Word(Placeholder(n))]);
    assert front + [Sql.Word(Placeholder(n))] == [Sql.Word(column), Sql.Word(op), Sql.Word(Placeholder(n))];
  }

  lemma LeafTextIs(m: FieldMapping, wildcard: bool, n: nat)
    ensures var c, p := m.column, Placeholder(n);
      LeafText(m, wildcard, n) ==
        if m.isArray then
          if wildcard then "EXISTS (SELECT 1 FROM unnest(" + c + ") AS elem WHERE elem LIKE " + p + ")"
          else p + " = ANY(" + c + ")"
        else c + (" " + (if wildcard then "LIKE" else "=") + " ") + p
  {
    assert " " + "LIKE" + " " == " LIKE " && " " + "=" + " " == " = ";
    hide Placeholder;
  }

  lemma ScanLeaf(m: FieldMapping, wildcard: bool, n: nat)
    requires GoodColumn(m.column)
    ensures var c, p := m.column, Placeholder(n);
      Sql.Scan(LeafText(m, wildcard, n)) ==
        if m.isArray then
          if wildcard then
            EXISTS_HEAD + ([Sql.Open, Sql.Word(c), Sql.Close] + (ELEM_LIKE + [Sql.Word(p), Sql.Close]))
          else [Sql.Word(p), Sql.Word("="), Sql.Word("ANY"), Sql.Open, Sql.Word(c), Sql.Close]
        else [Sql.Word(c), Sql.Word(if wildcard then "LIKE" else "="), Sql.Word(p)]
  {
    var c, p := m.column, Placeholder(n);
    PlaceholderReads(n);
    ColumnReads(c);
    Words();
    hide *;
    LeafTextIs(m, wildcard, n);
    if m.isArray && wildcard {
      ScanExists(c, p);
    } else if m.isArray {
      ScanAny(p, c);
    } else {
      var op := if wildcard then "LIKE" else "=";
      ScanThree(c, op, p);
      assert [Sql.Word(c), Sql.Word(op)] + [Sql.Word(p)] == [Sql.Word(c), Sql.Word(op), Sql.Word(p)];
    }
  }

  lemma ParamsLeaf(m: FieldMapping, wildcard: bool, n: nat)
    requires GoodColumn(m.column)
    ensures Params(Sql.Scan(LeafText(m, wildcard, n))) == [n]
  {
    var c := m.column;
    WordsAreNoParams();
    ScanLeaf(m, wildcard, n);
    hide *;
    if m.isArray && wildcard {
      ParamsExists(c, n);
    } else if m.isArray {
      ParamsAny(c, n);
    } else {
      ParamsThree(c, if wildcard then "LIKE" else "=", n);
    }
  }

  lemma ParamsGroup(first: string, parts: seq<string>, word: string, sep: string)
    requires Sql.IsWord(word) && sep == " " + word + " "
    ensures Params(Sql.Scan(Group(first, parts, sep))) ==
      Params(Sql.Scan(first)) + Params(TailToks(parts, word))
  {
    WordsAreNoParams();
    hide *;
    ScanGroupJoin(first, parts, word, sep);
    var inner := Sql.Scan(first) + TailToks(parts, word);
    ParamsAppend([Sql.Open], inner + [Sql.Close]);
    ParamsAppend(inner, [Sql.Close]);
    ParamsAppend(Sql.Scan(first), TailToks(parts, word));
    ParamsNone([Sql.Open]);
    ParamsNone([Sql.Close]);
  }

  lemma ParamsSnoc(parts: seq<string>, text: string, word: string)
    requires ParamOf(Sql.Word(word)) == []
    ensures Params(TailToks(parts + [text], word)) ==
      Params(TailToks(parts, word)) + Params(Sql.Scan(text))
    ensures Params(TailToks([], word)) == []
  {
    hide *;
    SnocToks(parts, text, word);
    NothingAfter(parts, text, word);
    var more := [Sql.Word(word)] + Sql.Scan(text);
    ParamsAppend(TailToks(parts, word), more);
    ParamsAppend([Sql.Word(word)], Sql.Scan(text));
    ParamsNone([Sql.Word(word)]);
  }

  lemma SnocToks(parts: seq<string>, text: string, word: string)
    ensures TailToks(parts + [text], word) ==
      TailToks(parts, word) + ([Sql.Word(word)] + Sql.Scan(text))
  {
    hide *;
    TailSnoc(parts + [text], word, []);
    assert (parts + [text])[..|parts|] == parts;
    assert Sql.Scan(text) + [] == Sql.Scan(text);
    assert TailToks(parts + [text], word) + [] == TailToks(parts + [text], word);
  }

  lemma NothingAfter(parts: seq<string>, text: string, word: string)
    ensures TailToks(parts + [text], word) + [] == TailToks(parts + [text], word)
    ensures Sql.Scan(text) + [] == Sql.Scan(text)
    ensures Params(TailToks([], word)) == []
  {
    hide Sql.Scan;
  }

  /** Whatever the query, its clause holds $n, $n+1, ... in order, one for each leaf. */
  lemma {:induction false} ParamsOr(fields: Fields, e: OrExpr, n: nat)
    requires GoodFields(fields) && EmitOr(fields, e, n).built.Clause?
    ensures Params(Sql.Scan(EmitOr(fields, e, n).built.text)) == Range(n, |LeavesOr(e)|)
    decreases e, 1
  {
    hide *;
    OrParts(fields, e, n);
    OrAndWords();
    LeavesUnfold(e, e.left);
    ParamsAnd(fields, e.left, n);
    var j := |LeavesAnd(e.left)|;
    ParamsAnds(fields, e.right, n + j);
    RangeAppend(n, j, |LeavesAnds(e.right)|);
    NoLeaves(e.right, []);
    ParamsGroup(EmitAnd(fields, e.left, n).built.text, EmitAnds(fields, e.right, n + j).parts, "OR", " OR ");
  }

  lemma NoLeaves(xs: seq<AndExpr>, us: seq<Unary>)
    ensures xs == [] ==> LeavesAnds(xs) == []
    ensures us == [] ==> LeavesUnaries(us) == []
  {}

  lemma {:induction false} ParamsAnds(fields: Fields, xs: seq<AndExpr>, n: nat)
    requires GoodFields(fields) && EmitAnds(fields, xs, n).unknown.None?
    ensures Params(TailToks(EmitAnds(fields, xs, n).parts, "OR")) == Range(n, |LeavesAnds(xs)|)
    decreases xs, 0
  {
    hide *;
    EmitAndsIs(fields, xs, n);
    WordsAreNoParams();
    if xs == [] {
      ParamsSnoc([], "", "OR");
      RangeAppend(n, 0, 0);
    } else {
      AndsBack(fields, xs, n);
      var front, back := xs[..|xs| - 1], xs[|xs| - 1];
      var j := |LeavesAnds(front)|;
      ParamsAnds(fields, front, n);
      ParamsAnd(fields, back, n + j);
      ParamsSnoc(EmitAnds(fields, front, n).parts, EmitAnd(fields, back, n + j).built.text, "OR");
      RangeAppend(n, j, |LeavesAnd(back)|);
    }
  }

  lemma {:induction false} ParamsAnd(fields: Fields, a: AndExpr, n: nat)
    requires GoodFields(fields) && EmitAnd(fields, a, n).built.Clause?
    ensures Params(Sql.Scan(EmitAnd(fields, a, n).built.text)) == Range(n, |LeavesAnd(a)|)
    decreases a, 1
  {
    hide *;
    AndParts(fields, a, n);
    OrAndWords();
    LeavesUnfold(OrExpr(a, []), a);
    ParamsUnary(fields, a.left, n);
    var j := |LeavesUnary(a.left)|;
    ParamsUnaries(fields, a.right, n + j);
    RangeAppend(n, j, |LeavesUnaries(a.right)|);
    NoLeaves([], a.right);
    ParamsGroup(EmitUnary(fields, a.left, n).built.text, EmitUnaries(fields, a.right, n + j).parts,
      "AND", " AND ");
  }

  lemma {:induction false} ParamsUnaries(fields: Fields, us: seq<Unary>, n: nat)
    requires GoodFields(fields) && EmitUnaries(fields, us, n).unknown.None?
    ensures Params(TailToks(EmitUnaries(fields, us, n).parts, "AND")) == Range(n, |LeavesUnaries(us)|)
    decreases us, 0
  {
    hide *;
    EmitUnariesIs(fields, us, n);
    WordsAreNoParams();
    if us == [] {
      ParamsSnoc([], "", "AND");
      RangeAppend(n, 0, 0);
    } else {
      UnariesBack(fields, us, n);
      var front, back := us[..|us| - 1], us[|us| - 1];
      var j := |LeavesUnaries(front)|;
      ParamsUnaries(fields, front, n);
      ParamsUnary(fields, back, n + j);
      ParamsSnoc(EmitUnaries(fields, front, n).parts, EmitUnary(fields, back, n + j).built.text, "AND");
      RangeAppend(n, j, |LeavesUnary(back)|);
    }
  }

  lemma {:induction false} ParamsUnary(fields: Fields, u: Unary, n: nat)
    requires GoodFields(fields) && EmitUnary(fields, u, n).built.Clause?
    ensures Params(Sql.Scan(EmitUnary(fields, u, n).built.text)) == Range(n, |LeavesUnary(u)|)
    decreases u, 1
  {
    hide Sql.Scan, LeafText, Params, GoodColumn;
    match u
    case SubExpr(e) => ParamsOr(fields, e, n);
    case Leaf(f) =>
      ParamsLeaf(fields[f.name], BareStar(f.raw, false), n);
      RangeAppend(n, 0, 1);
  }
}

/** A whole clause read back: whatever follows it, SQL's grammar takes exactly the clause and
    sees the query's own shape in it. */
module ReadBack {
  import opened Text
  import opened QueryAst
  import opened Builder
  import opened Leaves
  import opened Compile
  import Sql

  /** In front of these tokens, the text is one primary that reads as c. */
  predicate Reads(text: string, c: Sql.Cond, rest: seq<Sql.Token>) {
    Sql.ParsePrimary(Sql.Scan(text) + rest) == Some((c, rest))
  }

  /** The parts after a list's first, in front of these tokens, take acc to c. */
  predicate OrTailReads(parts: seq<string>, acc: Sql.Cond, c: Sql.Cond, rest: seq<Sql.Token>) {
    Sql.OrLoop(acc, TailToks(parts, "OR") + rest) == Sql.OrLoop(c, rest)
  }

  predicate AndTailReads(parts: seq<string>, acc: Sql.Cond, c: Sql.Cond, rest: seq<Sql.Token>) {
    Sql.AndLoop(acc, TailToks(parts, "AND") + rest) == Sql.AndLoop(c, rest)
  }

  function Group(first: string, parts: seq<string>, sep: string): string {
    "(" + Join([first] + parts, sep) + ")"
  }

  function Closing(parts: seq<string>, word: string, rest: seq<Sql.Token>): seq<Sql.Token> {
    TailToks(parts, word) + Closed(rest)
  }

  function Closed(rest: seq<Sql.Token>): seq<Sql.Token> {
    [Sql.Close] + rest
  }

  lemma AndLoopStops(c: Sql.Cond, rest: seq<Sql.Token>)
    requires !Sql.Sees(rest, "AND")
    ensures Sql.AndLoop(c, rest) == Some((c, rest))
  {}

  lemma OrLoopStep(acc: Sql.Cond, toks: seq<Sql.Token>, c: Sql.Cond, rest: seq<Sql.Token>)
    requires Sql.ParsePrimary(toks) == Some((c, rest)) && !Sql.Sees(rest, "AND")
    ensures Sql.OrLoop(acc, [Sql.Word("OR")] + toks) == Sql.OrLoop(Sql.Or(acc, c), rest)
  {
    AndLoopStops(c, rest);
    hide Sql.ParsePrimary, Sql.AndLoop;
    assert ([Sql.Word("OR")] + toks)[1..] == toks;
  }

  lemma AndLoopStep(acc: Sql.Cond, toks: seq<Sql.Token>, c: Sql.Cond, rest: seq<Sql.Token>)
    requires Sql.ParsePrimary(toks) == Some((c, rest))
    ensures Sql.AndLoop(acc, [Sql.Word("AND")] + toks) == Sql.AndLoop(Sql.And(acc, c), rest)
  {
    hide Sql.ParsePrimary;
    assert ([Sql.Word("AND")] + toks)[1..] == toks;
  }

  /** A group's inside, from its first part on, under both operators. */
  lemma GroupIsPrimary(inner: seq<Sql.Token>, c: Sql.Cond, rest: seq<Sql.Token>)
    requires Sql.ParseOr(inner + ([Sql.Close] + rest)) == Some((c, [Sql.Close] + rest))
    ensures Sql.ParsePrimary([Sql.Open] + (inner + [Sql.Close]) + rest) == Some((c, rest))
  {
    hide Sql.ParseOr, Sql.ParseComparison, Sql.ParseExists;
    var ts := [Sql.Open] + (inner + [Sql.Close]) + rest;
    assert ts[1..] == inner + ([Sql.Close] + rest);
    assert ([Sql.Close] + rest)[1..] == rest;
  }

  lemma TailStarts(parts: seq<string>, word: string, rest: seq<Sql.Token>)
    requires parts != []
    ensures Sql.Sees(TailToks(parts, word) + rest, word)
  {
    if |parts| > 1 {
      var front := parts[..|parts| - 1];
      var more := [Sql.Word(word)] + Sql.Scan(parts[|parts| - 1]);
      TailStarts(front, word, more);
      assert TailToks(parts, word) + rest == (TailToks(front, word) + more) + rest;
    } else {
      assert TailToks(parts[..0], word) == [];
    }
  }

  lemma TailSnoc(parts: seq<string>, word: string, rest: seq<Sql.Token>)
    requires parts != []
    ensures TailToks(parts, word) + rest ==
      TailToks(parts[..|parts| - 1], word) + ([Sql.Word(word)] + (Sql.Scan(parts[|parts| - 1]) + rest))
  {
    hide Sql.Scan;
  }

  lemma CombineText(left: Emit, right: EmitList, sep: string)
    requires left.built.Clause?
    ensures Combine(left, right, sep).built.Clause? ==>
      && right.unknown.None?
      && Combine(left, right, sep).built.text ==
        if |right.parts| == 0 then left.built.text
        else Group(left.built.text, right.parts, sep)
  {}

  /** What a successful Build says of its parts. */
  lemma OrParts(fields: Fields, e: OrExpr, n: nat)
    requires EmitOr(fields, e, n).built.Clause?
    ensures var left := EmitAnd(fields, e.left, n);
      var right := EmitAnds(fields, e.right, n + |LeavesAnd(e.left)|);
      && left.built.Clause? && right.unknown.None? && |right.parts| == |e.right|
      && EmitOr(fields, e, n).built.text ==
        if e.right == [] then left.built.text
        else Group(left.built.text, right.parts, " OR ")
  {
    hide *;
    EmitOrUnfold(fields, e, n);
    EmitAndReports(fields, e.left, n);
    var left := EmitAnd(fields, e.left, n);
    ReportsAll(fields, left, LeavesAnd(e.left));
    var k := n + |left.args|;
    var right := EmitAnds(fields, e.right, k);
    AndsPartsCount(fields, e.right, k);
    if left.built.Clause? {
      CombineText(left, right, " OR ");
    }
  }

  lemma AndParts(fields: Fields, a: AndExpr, n: nat)
    requires EmitAnd(fields, a, n).built.Clause?
    ensures var left := EmitUnary(fields, a.left, n);
      var right := EmitUnaries(fields, a.right, n + |LeavesUnary(a.left)|);
      && left.built.Clause? && right.unknown.None? && |right.parts| == |a.right|
      && EmitAnd(fields, a, n).built.text ==
        if a.right == [] then left.built.text
        else Group(left.built.text, right.parts, " AND ")
  {
    hide *;
    EmitAndUnfold(fields, a, n);
    EmitUnaryReports(fields, a.left, n);
    var left := EmitUnary(fields, a.left, n);
    ReportsAll(fields, left, LeavesUnary(a.left));
    var k := n + |left.args|;
    var right := EmitUnaries(fields, a.right, k);
    UnariesPartsCount(fields, a.right, k);
    if left.built.Clause? {
      CombineText(left, right, " AND ");
    }
  }

  lemma ReportsAll(fields: Fields, e: Emit, ls: seq<Field>)
    requires Reports(fields, e.built, e.args, ls)
    ensures e.built.Clause? ==> |e.args| == |ls|
  {}

  lemma {:induction false} AndsPartsCount(fields: Fields, xs: seq<AndExpr>, n: nat)
    ensures var l := EmitAnds(fields, xs, n); l.unknown.None? ==> |l.parts| == |xs|
  {
    EmitAndsIs(fields, xs, n);
    hide EmitAnds, EmitAnd;
    if xs != [] {
      AndsPartsCount(fields, xs[..|xs| - 1], n);
    }
  }

  lemma {:induction false} UnariesPartsCount(fields: Fields, us: seq<Unary>, n: nat)
    ensures var l := EmitUnaries(fields, us, n); l.unknown.None? ==> |l.parts| == |us|
  {
    EmitUnariesIs(fields, us, n);
    hide EmitUnaries, EmitUnary;
    if us != [] {
      UnariesPartsCount(fields, us[..|us| - 1], n);
    }
  }

  /** One more part of a list: its own clause, numbered after the leaves before it. */
  lemma ExtendIs(whole: EmitList, init: EmitList, last: Emit)
    requires whole == (if init.unknown.Some? then init else Extend(init, last)) && whole.unknown.None?
    ensures init.unknown.None? && last.built.Clause? && whole.parts == init.parts + [last.built.text]
  {}

  lemma AndsBack(fields: Fields, xs: seq<AndExpr>, n: nat)
    requires xs != [] && EmitAnds(fields, xs, n).unknown.None?
    ensures var front, back := xs[..|xs| - 1], xs[|xs| - 1];
      var init, last := EmitAnds(fields, front, n), EmitAnd(fields, back, n + |LeavesAnds(front)|);
      && init.unknown.None? && last.built.Clause?
      && EmitAnds(fields, xs, n).parts == init.parts + [last.built.text]
  {
    hide *;
    EmitAndsIs(fields, xs, n);
    var front := xs[..|xs| - 1];
    var init := EmitAnds(fields, front, n);
    ExtendIs(EmitAnds(fields, xs, n), init, EmitAnd(fields, xs[|xs| - 1], n + |init.args|));
    EmitAndsReports(fields, front, n);
    ReportsAllList(fields, init, LeavesAnds(front));
  }

  lemma UnariesBack(fields: Fields, us: seq<Unary>, n: nat)
    requires us != [] && EmitUnaries(fields, us, n).unknown.None?
    ensures var front, back := us[..|us| - 1], us[|us| - 1];
      var init, last := EmitUnaries(fields, front, n), EmitUnary(fields, back, n + |LeavesUnaries(front)|);
      && init.unknown.None? && last.built.Clause?
      && EmitUnaries(fields, us, n).parts == init.parts + [last.built.text]
  {
    hide *;
    EmitUnariesIs(fields, us, n);
    var front := us[..|us| - 1];
    var init := EmitUnaries(fields, front, n);
    ExtendIs(EmitUnaries(fields, us, n), init, EmitUnary(fields, us[|us| - 1], n + |init.args|));
    EmitUnariesReports(fields, front, n);
    ReportsAllList(fields, init, LeavesUnaries(front));
  }

  lemma ReportsAllList(fields: Fields, l: EmitList, ls: seq<Field>)
    requires ReportsList(fields, l, ls)
    ensures l.unknown.None? ==> |l.args| == |ls|
  {}

  lemma ReadOrGroup(lt: seq<Sql.Token>, lc: Sql.Cond, tail: seq<Sql.Token>, c: Sql.Cond, rest: seq<Sql.Token>)
    requires Sql.ParsePrimary(lt + (tail + ([Sql.Close] + rest))) == Some((lc, tail + ([Sql.Close] + rest)))
    requires Sql.Sees(tail + ([Sql.Close] + rest), "OR")
    requires Sql.OrLoop(lc, tail + ([Sql.Close] + rest)) == Sql.OrLoop(c, [Sql.Close] + rest)
    ensures Sql.ParsePrimary([Sql.Open] + ((lt + tail) + [Sql.Close]) + rest) == Some((c, rest))
  {
    var close := [Sql.Close] + rest;
    AndLoopStops(lc, tail + close);
    assert Sql.ParseOr(lt + (tail + close)) == Sql.OrLoop(c, close);
    assert Sql.OrLoop(c, close) == Some((c, close));
    hide *;
    assert lt + (tail + close) == (lt + tail) + close;
    GroupIsPrimary(lt + tail, c, rest);
  }

  lemma ReadAndGroup(lt: seq<Sql.Token>, lc: Sql.Cond, tail: seq<Sql.Token>, c: Sql.Cond, rest: seq<Sql.Token>)
    requires Sql.ParsePrimary(lt + (tail + ([Sql.Close] + rest))) == Some((lc, tail + ([Sql.Close] + rest)))
    requires Sql.AndLoop(lc, tail + ([Sql.Close] + rest)) == Sql.AndLoop(c, [Sql.Close] + rest)
    ensures Sql.ParsePrimary([Sql.Open] + ((lt + tail) + [Sql.Close]) + rest) == Some((c, rest))
  {
    var close := [Sql.Close] + rest;
    assert Sql.AndLoop(c, close) == Some((c, close));
    assert Sql.ParseAnd(lt + (tail + close)) == Some((c, close));
    assert Sql.ParseOr(lt + (tail + close)) == Sql.OrLoop(c, close);
    assert Sql.OrLoop(c, close) == Some((c, close));
    hide *;
    assert lt + (tail + close) == (lt + tail) + close;
    GroupIsPrimary(lt + tail, c, rest);
  }

  lemma OrAndWords()
    ensures Sql.IsWord("OR") && Sql.IsWord("AND")
    ensures " OR " == " " + "OR" + " " && " AND " == " " + "AND" + " "
  {}

  lemma ScanGroupJoin(first: string, parts: seq<string>, word: string, sep: string)
    requires Sql.IsWord(word) && sep == " " + word + " "
    ensures Sql.Scan(Group(first, parts, sep)) ==
      [Sql.Open] + ((Sql.Scan(first) + TailToks(parts, word)) + [Sql.Close])
  {
    assert Group(first, parts, sep) == "(" + Join([first] + parts, sep) + ")";
    hide *;
    ScanJoin(first, parts, word);
    ScanGroup(Join([first] + parts, sep));
  }

  lemma GroupOr(lt: string, lc: Sql.Cond, parts: seq<string>, c: Sql.Cond, rest: seq<Sql.Token>)
    requires parts != []
    requires Reads(lt, lc, Closing(parts, "OR", rest)) && OrTailReads(parts, lc, c, Closed(rest))
    ensures Reads(Group(lt, parts, " OR "), c, rest)
  {
    OrAndWords();
    TailStarts(parts, "OR", [Sql.Close] + rest);
    hide Sql.Scan, Sql.ParsePrimary, Sql.OrLoop, TailToks, Group, Sql.IsWord, Sql.Sees;
    ReadOrGroup(Sql.Scan(lt), lc, TailToks(parts, "OR"), c, rest);
    ScanGroupJoin(lt, parts, "OR", " OR ");
  }

  lemma GroupAnd(lt: string, lc: Sql.Cond, parts: seq<string>, c: Sql.Cond, rest: seq<Sql.Token>)
    requires Reads(lt, lc, Closing(parts, "AND", rest)) && AndTailReads(parts, lc, c, Closed(rest))
    ensures Reads(Group(lt, parts, " AND "), c, rest)
  {
    OrAndWords();
    hide Sql.Scan, Sql.ParsePrimary, Sql.AndLoop, TailToks, Group, Sql.IsWord;
    ReadAndGroup(Sql.Scan(lt), lc, TailToks(parts, "AND"), c, rest);
    ScanGroupJoin(lt, parts, "AND", " AND ");
  }

  lemma OrTailStep(parts: seq<string>, text: string, acc: Sql.Cond, c: Sql.Cond, d: Sql.Cond, rest: seq<Sql.Token>)
    requires OrTailReads(parts, acc, c, OneMore("OR", text, rest))
    requires Reads(text, d, rest) && !Sql.Sees(rest, "AND")
    ensures OrTailReads(parts + [text], acc, Sql.Or(c, d), rest)
  {
    TailSnoc(parts + [text], "OR", rest);
    assert (parts + [text])[..|parts|] == parts;
    hide Sql.Scan, Sql.ParsePrimary, Sql.OrLoop, TailToks, Sql.Sees;
    OrLoopStep(c, Sql.Scan(text) + rest, d, rest);
  }

  lemma AndTailStep(parts: seq<string>, text: string, acc: Sql.Cond, c: Sql.Cond, d: Sql.Cond, rest: seq<Sql.Token>)
    requires AndTailReads(parts, acc, c, OneMore("AND", text, rest))
    requires Reads(text, d, rest)
    ensures AndTailReads(parts + [text], acc, Sql.And(c, d), rest)
  {
    TailSnoc(parts + [text], "AND", rest);
    assert (parts + [text])[..|parts|] == parts;
    hide Sql.Scan, Sql.ParsePrimary, Sql.AndLoop, TailToks;
    AndLoopStep(c, Sql.Scan(text) + rest, d, rest);
  }

  function OneMore(word: string, text: string, rest: seq<Sql.Token>): seq<Sql.Token> {
    [Sql.Word(word)] + (Sql.Scan(text) + rest)
  }

  lemma TailEnds(acc: Sql.Cond, text: string, rest: seq<Sql.Token>)
    ensures OrTailReads([], acc, acc, rest) && AndTailReads([], acc, acc, rest)
    ensures !Sql.Sees(Closed(rest), "AND") && !Sql.Sees(OneMore("OR", text, rest), "AND")
  {
    hide Sql.OrLoop, Sql.AndLoop, Sql.Scan;
    assert TailToks([], "OR") + rest == rest && TailToks([], "AND") + rest == rest;
  }

  lemma CondOrUnfold(fields: Fields, e: OrExpr, n: nat)
    ensures CondOr(fields, e, n) ==
      CondAnds(fields, CondAnd(fields, e.left, n), e.right, n + |LeavesAnd(e.left)|)
    ensures e.right == [] ==> CondOr(fields, e, n) == CondAnd(fields, e.left, n)
  {}

  lemma CondAndUnfold(fields: Fields, a: AndExpr, n: nat)
    ensures CondAnd(fields, a, n) ==
      CondUnaries(fields, CondUnary(fields, a.left, n), a.right, n + |LeavesUnary(a.left)|)
    ensures a.right == [] ==> CondAnd(fields, a, n) == CondUnary(fields, a.left, n)
  {}

  lemma CondTails(fields: Fields, acc: Sql.Cond, xs: seq<AndExpr>, us: seq<Unary>, n: nat)
    ensures CondAnds(fields, acc, xs, n) ==
      if xs == [] then acc
      else
        var front, back := xs[..|xs| - 1], xs[|xs| - 1];
        Sql.Or(CondAnds(fields, acc, front, n), CondAnd(fields, back, n + |LeavesAnds(front)|))
    ensures CondUnaries(fields, acc, us, n) ==
      if us == [] then acc
      else
        var front, back := us[..|us| - 1], us[|us| - 1];
        Sql.And(CondUnaries(fields, acc, front, n), CondUnary(fields, back, n + |LeavesUnaries(front)|))
  {}

  /** Every emitted clause is one primary: parenthesised, or a single comparison. */
  lemma {:induction false} PrimaryOr(fields: Fields, e: OrExpr, n: nat, rest: seq<Sql.Token>)
    requires GoodFields(fields) && EmitOr(fields, e, n).built.Clause?
    ensures Reads(EmitOr(fields, e, n).built.text, CondOr(fields, e, n), rest)
    decreases e, 1
  {
    hide *;
    OrParts(fields, e, n);
    CondOrUnfold(fields, e, n);
    if e.right == [] {
      PrimaryAnd(fields, e.left, n, rest);
    } else {
      var k := n + |LeavesAnd(e.left)|;
      var parts := EmitAnds(fields, e.right, k).parts;
      var lc := CondAnd(fields, e.left, n);
      PrimaryAnd(fields, e.left, n, Closing(parts, "OR", rest));
      TailEnds(lc, "", rest);
      ReadAnds(fields, e.right, k, lc, Closed(rest));
      GroupOr(EmitAnd(fields, e.left, n).built.text, lc, parts, CondOr(fields, e, n), rest);
    }
  }

  lemma {:induction false} ReadAnds(
      fields: Fields, xs: seq<AndExpr>, n: nat, acc: Sql.Cond, rest: seq<Sql.Token>)
    requires GoodFields(fields) && EmitAnds(fields, xs, n).unknown.None? && !Sql.Sees(rest, "AND")
    ensures OrTailReads(EmitAnds(fields, xs, n).parts, acc, CondAnds(fields, acc, xs, n), rest)
    decreases xs, 0
  {
    hide *;
    CondTails(fields, acc, xs, [], n);
    EmitAndsIs(fields, xs, n);
    if xs == [] {
      TailEnds(acc, "", rest);
    } else {
      AndsBack(fields, xs, n);
      var front, back := xs[..|xs| - 1], xs[|xs| - 1];
      var k := n + |LeavesAnds(front)|;
      var text := EmitAnd(fields, back, k).built.text;
      TailEnds(acc, text, rest);
      ReadAnds(fields, front, n, acc, OneMore("OR", text, rest));
      PrimaryAnd(fields, back, k, rest);
      OrTailStep(EmitAnds(fields, front, n).parts, text, acc,
        CondAnds(fields, acc, front, n), CondAnd(fields, back, k), rest);
    }
  }

  lemma {:induction false} PrimaryAnd(fields: Fields, a: AndExpr, n: nat, rest: seq<Sql.Token>)
    requires GoodFields(fields) && EmitAnd(fields, a, n).built.Clause?
    ensures Reads(EmitAnd(fields, a, n).built.text, CondAnd(fields, a, n), rest)
    decreases a, 1
  {
    hide *;
    AndParts(fields, a, n);
    CondAndUnfold(fields, a, n);
    if a.right == [] {
      PrimaryUnary(fields, a.left, n, rest);
    } else {
      var k := n + |LeavesUnary(a.left)|;
      var parts := EmitUnaries(fields, a.right, k).parts;
      var lc := CondUnary(fields, a.left, n);
      PrimaryUnary(fields, a.left, n, Closing(parts, "AND", rest));
      ReadUnaries(fields, a.right, k, lc, Closed(rest));
      GroupAnd(EmitUnary(fields, a.left, n).built.text, lc, parts, CondAnd(fields, a, n), rest);
    }
  }

  lemma {:induction false} ReadUnaries(
      fields: Fields, us: seq<Unary>, n: nat, acc: Sql.Cond, rest: seq<Sql.Token>)
    requires GoodFields(fields) && EmitUnaries(fields, us, n).unknown.None?
    ensures AndTailReads(EmitUnaries(fields, us, n).parts, acc, CondUnaries(fields, acc, us, n), rest)
    decreases us, 0
  {
    hide *;
    CondTails(fields, acc, [], us, n);
    EmitUnariesIs(fields, us, n);
    if us == [] {
      TailEnds(acc, "", rest);
    } else {
      UnariesBack(fields, us, n);
      var front, back := us[..|us| - 1], us[|us| - 1];
      var k := n + |LeavesUnaries(front)|;
      var text := EmitUnary(fields, back, k).built.text;
      ReadUnaries(fields, front, n, acc, OneMore("AND", text, rest));
      PrimaryUnary(fields, back, k, rest);
      AndTailStep(EmitUnaries(fields, front, n).parts, text, acc,
        CondUnaries(fields, acc, front, n), CondUnary(fields, back, k), rest);
    }
  }

  lemma {:induction false} PrimaryUnary(fields: Fields, u: Unary, n: nat, rest: seq<Sql.Token>)
    requires GoodFields(fields) && EmitUnary(fields, u, n).built.Clause?
    ensures Reads(EmitUnary(fields, u, n).built.text, CondUnary(fields, u, n), rest)
    decreases u, 1
  {
    hide Sql.ParsePrimary, Sql.Scan, LeafText, LeafCond;
    match u
    case SubExpr(e) => PrimaryOr(fields, e, n, rest);
    case Leaf(f) => PrimaryLeaf(fields[f.name], BareStar(f.raw, false), n, rest);
  }
}

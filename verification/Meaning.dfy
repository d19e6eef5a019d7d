/** What a query means of a row, and that the compiled condition says the same under SQL's
    three-valued truth. */
module Meaning {
  import opened Text
  import opened QueryAst
  import opened Builder
  import opened Leaves
  import opened Compile
  import opened Wildcard
  import opened Sql

  /** A leaf can be read as its user wrote it or as it was compiled. */
  datatype Reading = AsWritten | AsCompiled

  predicate Accepts(r: Reading, raw: string, v: string) {
    if r == AsWritten then GlobAccepts(raw, v) else LeafAccepts(raw, v)
  }

  /** NULL, in a column or as an array's element, is never a match. */
  predicate MeansField(r: Reading, fields: Fields, f: Field, row: Row) {
    && f.name in fields
    && fields[f.name].column in row
    && match row[fields[f.name].column]
       case Null => false
       case Txt(v) => Accepts(r, f.raw, v)
       case Array(es) => exists i :: 0 <= i < |es| && es[i].Some? && Accepts(r, f.raw, es[i].value)
  }

  predicate MeansOr(r: Reading, fields: Fields, e: OrExpr, row: Row)
    decreases e, 1
  {
    MeansAnd(r, fields, e.left, row) || MeansAny(r, fields, e.right, row)
  }

  predicate MeansAny(r: Reading, fields: Fields, xs: seq<AndExpr>, row: Row)
    decreases xs, 0
  {
    exists i :: 0 <= i < |xs| && MeansAnd(r, fields, xs[i], row)
  }

  predicate MeansAnd(r: Reading, fields: Fields, a: AndExpr, row: Row)
    decreases a, 1
  {
    MeansUnary(r, fields, a.left, row) && MeansAll(r, fields, a.right, row)
  }

  predicate MeansAll(r: Reading, fields: Fields, us: seq<Unary>, row: Row)
    decreases us, 0
  {
    forall i :: 0 <= i < |us| ==> MeansUnary(r, fields, us[i], row)
  }

  predicate MeansUnary(r: Reading, fields: Fields, u: Unary, row: Row)
    decreases u, 1
  {
    match u
    case SubExpr(e) => MeansOr(r, fields, e, row)
    case Leaf(f) => MeansField(r, fields, f, row)
  }

  /** A row of the shape the field map expects. */
  predicate Conforms(fields: Fields, row: Row) {
    forall name :: name in fields ==>
      && fields[name].column in row
      && match row[fields[name].column]
         case Null => true
         case Txt(_) => !fields[name].isArray
         case Array(_) => fields[name].isArray
  }

  /** The leaves are mapped, their patterns are ones the server takes, and their arguments
      stand from $n on. */
  predicate Ready(fields: Fields, args: seq<Arg>, n: nat, ls: seq<Field>) {
    && 1 <= n && n - 1 + |ls| <= |args|
    && forall i :: 0 <= i < |ls| ==>
      && ls[i].name in fields
      && (BareStar(ls[i].raw, false) ==> PatternOk(LeafArg(ls[i])))
      && args[n - 1 + i] == StrArg(LeafArg(ls[i]))
  }

  lemma ReadySplit(fields: Fields, args: seq<Arg>, n: nat, a: seq<Field>, b: seq<Field>)
    requires Ready(fields, args, n, a + b)
    ensures Ready(fields, args, n, a) && Ready(fields, args, n + |a|, b)
  {
    hide BareStar, PatternOk, LeafArg;
    forall i | 0 <= i < |a|
      ensures (a + b)[i] == a[i]
    {}
    forall i | 0 <= i < |b|
      ensures (a + b)[|a| + i] == b[i] && args[n + |a| - 1 + i] == StrArg(LeafArg(b[i]))
    {
      assert args[n - 1 + (|a| + i)] == StrArg(LeafArg((a + b)[|a| + i]));
    }
  }

  /** A truth that selects exactly when b holds. */
  predicate Selects(t: Truth, b: bool) {
    t != Fault && (t == True <==> b)
  }

  lemma SelectsOr(s: Truth, a: bool, t: Truth, b: bool)
    requires Selects(s, a) && Selects(t, b)
    ensures Selects(OrTruth(s, t), a || b) && Selects(AndTruth(s, t), a && b)
  {}

  lemma EvalField(fields: Fields, f: Field, n: nat, row: Row, args: seq<Arg>)
    requires Conforms(fields, row) && Ready(fields, args, n, [f])
    ensures Selects(Eval(LeafCond(Mapping(fields, f.name), BareStar(f.raw, false), n), row, args),
      MeansField(AsCompiled, fields, f, row))
  {
    assert [f][0] == f && args[n - 1 + 0] == StrArg(LeafArg(f));
    var m := fields[f.name];
    var cell := row[m.column];
    hide BareStar, Unescaped, PatternOk, LikeMatches, StarsToPercents;
    if cell.Array? {
      EvalArray(f.raw, cell.elems);
    }
  }

  lemma EvalArray(raw: string, es: seq<Option<string>>)
    ensures var arg := LeafArg(Field("", raw));
      (if BareStar(raw, false) then
        exists i :: 0 <= i < |es| && es[i].Some? && LikeMatches(arg, es[i].value)
      else Some(arg) in es) <==>
      exists i :: 0 <= i < |es| && es[i].Some? && Accepts(AsCompiled, raw, es[i].value)
  {
    hide BareStar, Unescaped, LikeMatches, StarsToPercents;
    var arg := LeafArg(Field("", raw));
    if !BareStar(raw, false) && Some(arg) in es {
      var i :| 0 <= i < |es| && es[i] == Some(arg);
      assert Accepts(AsCompiled, raw, es[i].value);
    }
  }

  /** The compiled condition selects exactly the rows the query means. */
  lemma {:induction false} EvalOr(fields: Fields, e: OrExpr, n: nat, row: Row, args: seq<Arg>)
    requires Conforms(fields, row) && Ready(fields, args, n, LeavesOr(e))
    ensures Selects(Eval(CondOr(fields, e, n), row, args), MeansOr(AsCompiled, fields, e, row))
    decreases e, 1
  {
    hide *;
    OrIs(fields, e, n, row);
    ReadySplit(fields, args, n, LeavesAnd(e.left), LeavesAnds(e.right));
    EvalAnd(fields, e.left, n, row, args);
    EvalAnds(fields, CondAnd(fields, e.left, n), MeansAnd(AsCompiled, fields, e.left, row),
      e.right, n + |LeavesAnd(e.left)|, row, args);
  }

  lemma OrIs(fields: Fields, e: OrExpr, n: nat, row: Row)
    ensures LeavesOr(e) == LeavesAnd(e.left) + LeavesAnds(e.right)
    ensures CondOr(fields, e, n) ==
      CondAnds(fields, CondAnd(fields, e.left, n), e.right, n + |LeavesAnd(e.left)|)
    ensures MeansOr(AsCompiled, fields, e, row) <==>
      MeansAnd(AsCompiled, fields, e.left, row) || MeansAny(AsCompiled, fields, e.right, row)
  {}

  lemma AndIs(fields: Fields, a: AndExpr, n: nat, row: Row)
    ensures LeavesAnd(a) == LeavesUnary(a.left) + LeavesUnaries(a.right)
    ensures CondAnd(fields, a, n) ==
      CondUnaries(fields, CondUnary(fields, a.left, n), a.right, n + |LeavesUnary(a.left)|)
    ensures MeansAnd(AsCompiled, fields, a, row) <==>
      MeansUnary(AsCompiled, fields, a.left, row) && MeansAll(AsCompiled, fields, a.right, row)
  {}

  lemma AndsAre(fields: Fields, acc: Cond, xs: seq<AndExpr>, n: nat, row: Row)
    ensures xs == [] ==>
      CondAnds(fields, acc, xs, n) == acc && !MeansAny(AsCompiled, fields, xs, row)
    ensures xs != [] ==>
      var front, back := xs[..|xs| - 1], xs[|xs| - 1];
      && LeavesAnds(xs) == LeavesAnds(front) + LeavesAnd(back)
      && CondAnds(fields, acc, xs, n) ==
        Or(CondAnds(fields, acc, front, n), CondAnd(fields, back, n + |LeavesAnds(front)|))
      && (MeansAny(AsCompiled, fields, xs, row) <==>
        MeansAny(AsCompiled, fields, front, row) || MeansAnd(AsCompiled, fields, back, row))
  {
    if xs != [] {
      var front, back := xs[..|xs| - 1], xs[|xs| - 1];
      assert forall i :: 0 <= i < |front| ==> front[i] == xs[i];
      hide MeansAnd, LeavesAnd, CondAnd;
      if MeansAny(AsCompiled, fields, xs, row) {
        var i :| 0 <= i < |xs| && MeansAnd(AsCompiled, fields, xs[i], row);
        assert i < |front| ==> MeansAnd(AsCompiled, fields, front[i], row);
      }
      if MeansAny(AsCompiled, fields, front, row) {
        var i :| 0 <= i < |front| && MeansAnd(AsCompiled, fields, front[i], row);
        assert MeansAnd(AsCompiled, fields, xs[i], row);
      }
    }
  }

  lemma UnariesAre(fields: Fields, acc: Cond, us: seq<Unary>, n: nat, row: Row)
    ensures us == [] ==>
      CondUnaries(fields, acc, us, n) == acc && MeansAll(AsCompiled, fields, us, row)
    ensures us != [] ==>
      var front, back := us[..|us| - 1], us[|us| - 1];
      && LeavesUnaries(us) == LeavesUnaries(front) + LeavesUnary(back)
      && CondUnaries(fields, acc, us, n) ==
        And(CondUnaries(fields, acc, front, n), CondUnary(fields, back, n + |LeavesUnaries(front)|))
      && (MeansAll(AsCompiled, fields, us, row) <==>
        MeansAll(AsCompiled, fields, front, row) && MeansUnary(AsCompiled, fields, back, row))
  {
    if us != [] {
      var front := us[..|us| - 1];
      assert forall i :: 0 <= i < |front| ==> front[i] == us[i];
      hide MeansUnary, LeavesUnary, CondUnary;
    }
  }

  lemma {:induction false} EvalAnds(
      fields: Fields, acc: Cond, b: bool, xs: seq<AndExpr>, n: nat, row: Row, args: seq<Arg>)
    requires Conforms(fields, row) && Ready(fields, args, n, LeavesAnds(xs))
    requires Selects(Eval(acc, row, args), b)
    ensures Selects(Eval(CondAnds(fields, acc, xs, n), row, args), b || MeansAny(AsCompiled, fields, xs, row))
    decreases xs, 0
  {
    hide *;
    AndsAre(fields, acc, xs, n, row);
    if xs != [] {
      var front, back := xs[..|xs| - 1], xs[|xs| - 1];
      var k := n + |LeavesAnds(front)|;
      ReadySplit(fields, args, n, LeavesAnds(front), LeavesAnd(back));
      EvalAnds(fields, acc, b, front, n, row, args);
      EvalAnd(fields, back, k, row, args);
      EvalPair(CondAnds(fields, acc, front, n), b || MeansAny(AsCompiled, fields, front, row),
        CondAnd(fields, back, k), MeansAnd(AsCompiled, fields, back, row), row, args);
    }
  }

  lemma EvalPair(c: Cond, a: bool, d: Cond, b: bool, row: Row, args: seq<Arg>)
    requires Selects(Eval(c, row, args), a) && Selects(Eval(d, row, args), b)
    ensures Selects(Eval(Or(c, d), row, args), a || b)
    ensures Selects(Eval(And(c, d), row, args), a && b)
  {
    SelectsOr(Eval(c, row, args), a, Eval(d, row, args), b);
  }

  lemma {:induction false} EvalAnd(fields: Fields, a: AndExpr, n: nat, row: Row, args: seq<Arg>)
    requires Conforms(fields, row) && Ready(fields, args, n, LeavesAnd(a))
    ensures Selects(Eval(CondAnd(fields, a, n), row, args), MeansAnd(AsCompiled, fields, a, row))
    decreases a, 1
  {
    hide *;
    AndIs(fields, a, n, row);
    ReadySplit(fields, args, n, LeavesUnary(a.left), LeavesUnaries(a.right));
    EvalUnary(fields, a.left, n, row, args);
    EvalUnaries(fields, CondUnary(fields, a.left, n), MeansUnary(AsCompiled, fields, a.left, row),
      a.right, n + |LeavesUnary(a.left)|, row, args);
  }

  lemma {:induction false} EvalUnaries(
      fields: Fields, acc: Cond, b: bool, us: seq<Unary>, n: nat, row: Row, args: seq<Arg>)
    requires Conforms(fields, row) && Ready(fields, args, n, LeavesUnaries(us))
    requires Selects(Eval(acc, row, args), b)
    ensures Selects(Eval(CondUnaries(fields, acc, us, n), row, args), b && MeansAll(AsCompiled, fields, us, row))
    decreases us, 0
  {
    hide *;
    UnariesAre(fields, acc, us, n, row);
    if us != [] {
      var front, back := us[..|us| - 1], us[|us| - 1];
      var k := n + |LeavesUnaries(front)|;
      ReadySplit(fields, args, n, LeavesUnaries(front), LeavesUnary(back));
      EvalUnaries(fields, acc, b, front, n, row, args);
      EvalUnary(fields, back, k, row, args);
      EvalPair(CondUnaries(fields, acc, front, n), b && MeansAll(AsCompiled, fields, front, row),
        CondUnary(fields, back, k), MeansUnary(AsCompiled, fields, back, row), row, args);
    }
  }

  lemma {:induction false} EvalUnary(fields: Fields, u: Unary, n: nat, row: Row, args: seq<Arg>)
    requires Conforms(fields, row) && Ready(fields, args, n, LeavesUnary(u))
    ensures Selects(Eval(CondUnary(fields, u, n), row, args), MeansUnary(AsCompiled, fields, u, row))
    decreases u, 1
  {
    hide Eval, Conforms, Ready, MeansField, LeafCond, Selects;
    match u
    case SubExpr(e) => EvalOr(fields, e, n, row, args);
    case Leaf(f) => EvalField(fields, f, n, row, args);
  }

  /** Leaves that test just what their user wrote, as Wildcard.LeafExactly has it. */
  predicate Faithful(f: Field) {
    BareStar(f.raw, false) ==> Clean(Items(f.raw, false)) && Lit('%') !in Items(f.raw, false)
  }

  predicate AllFaithful(ls: seq<Field>) {
    forall i :: 0 <= i < |ls| ==> Faithful(ls[i])
  }

  lemma FaithfulAccepts(raw: string, v: string)
    requires Faithful(Field("", raw))
    ensures Accepts(AsWritten, raw, v) <==> Accepts(AsCompiled, raw, v)
  {
    var items := Items(raw, false);
    ItemsAre(raw, false);
    hide LikeMatches, GlobMatches, Items, Unescaped, BareStar;
    if BareStar(raw, false) {
      AgreeExactly(items);
      assert Agree(items);
      assert LeafAccepts(raw, v) <==> LikeMatches(Pattern(items), v);
    } else {
      GlobWithoutStar(items, v);
    }
  }

  lemma {:induction false} SameOr(fields: Fields, e: OrExpr, row: Row)
    requires AllFaithful(LeavesOr(e))
    ensures MeansOr(AsWritten, fields, e, row) <==> MeansOr(AsCompiled, fields, e, row)
    decreases e, 1
  {
    hide Faithful, MeansAnd;
    AllFaithfulSplit(LeavesAnd(e.left), LeavesAnds(e.right));
    SameAnd(fields, e.left, row);
    forall i | 0 <= i < |e.right|
      ensures MeansAnd(AsWritten, fields, e.right[i], row) <==> MeansAnd(AsCompiled, fields, e.right[i], row)
    {
      LeavesOfAnd(e.right, i);
      SameAnd(fields, e.right[i], row);
    }
  }

  lemma AllFaithfulSplit(a: seq<Field>, b: seq<Field>)
    requires AllFaithful(a + b)
    ensures AllFaithful(a) && AllFaithful(b)
  {
    hide Faithful;
    assert forall i :: 0 <= i < |a| ==> (a + b)[i] == a[i];
    assert forall i :: 0 <= i < |b| ==> (a + b)[|a| + i] == b[i];
  }

  lemma {:induction false} LeavesOfAnd(xs: seq<AndExpr>, i: nat)
    requires AllFaithful(LeavesAnds(xs)) && i < |xs|
    ensures AllFaithful(LeavesAnd(xs[i]))
  {
    var front := xs[..|xs| - 1];
    hide Faithful, LeavesAnd;
    AllFaithfulSplit(LeavesAnds(front), LeavesAnd(xs[|xs| - 1]));
    if i < |front| {
      LeavesOfAnd(front, i);
    }
  }

  lemma {:induction false} LeavesOfUnary(us: seq<Unary>, i: nat)
    requires AllFaithful(LeavesUnaries(us)) && i < |us|
    ensures AllFaithful(LeavesUnary(us[i]))
  {
    var front := us[..|us| - 1];
    hide Faithful, LeavesUnary;
    AllFaithfulSplit(LeavesUnaries(front), LeavesUnary(us[|us| - 1]));
    if i < |front| {
      LeavesOfUnary(front, i);
    }
  }

  lemma {:induction false} SameAnd(fields: Fields, a: AndExpr, row: Row)
    requires AllFaithful(LeavesAnd(a))
    ensures MeansAnd(AsWritten, fields, a, row) <==> MeansAnd(AsCompiled, fields, a, row)
    decreases a, 1
  {
    hide Faithful, MeansUnary;
    AllFaithfulSplit(LeavesUnary(a.left), LeavesUnaries(a.right));
    SameUnary(fields, a.left, row);
    forall i | 0 <= i < |a.right|
      ensures MeansUnary(AsWritten, fields, a.right[i], row) <==> MeansUnary(AsCompiled, fields, a.right[i], row)
    {
      LeavesOfUnary(a.right, i);
      SameUnary(fields, a.right[i], row);
    }
  }

  lemma {:induction false} SameUnary(fields: Fields, u: Unary, row: Row)
    requires AllFaithful(LeavesUnary(u))
    ensures MeansUnary(AsWritten, fields, u, row) <==> MeansUnary(AsCompiled, fields, u, row)
    decreases u, 1
  {
    match u
    case SubExpr(e) => SameOr(fields, e, row);
    case Leaf(f) =>
      assert Faithful([f][0]);
      hide Faithful, Accepts;
      FaithfulName(f);
      forall v
        ensures Accepts(AsWritten, f.raw, v) <==> Accepts(AsCompiled, f.raw, v)
      {
        FaithfulAccepts(f.raw, v);
      }
  }

  lemma FaithfulName(f: Field)
    ensures Faithful(f) <==> Faithful(Field("", f.raw))
  {}

  /** A clean value's pattern never ends in the escape character. */
  lemma FaithfulPatternOk(f: Field)
    requires Faithful(f) && BareStar(f.raw, false)
    ensures PatternOk(LeafArg(f))
  {
    ItemsAre(f.raw, false);
    hide PatternOk, BareStar, Unescaped;
    CleanPatternOk(Items(f.raw, false));
  }

  lemma {:induction false} CleanPatternOk(items: seq<Item>)
    requires Lit('\\') !in items
    ensures PatternOk(Pattern(items))
  {
    if items != [] {
      PatternStep(items);
      CleanPatternOk(items[1..]);
    }
  }
}

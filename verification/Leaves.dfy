/** The leaves of a query in reading order: which one makes Build fail, and which arguments
    it binds. */
module Leaves {
  import opened Text
  import opened QueryAst
  import opened Builder

  function LeavesOr(e: OrExpr): seq<Field>
    decreases e, 1
  {
    LeavesAnd(e.left) + LeavesAnds(e.right)
  }

  function LeavesAnds(xs: seq<AndExpr>): seq<Field>
    decreases xs, 0
  {
    if xs == [] then [] else LeavesAnds(xs[..|xs| - 1]) + LeavesAnd(xs[|xs| - 1])
  }

  function LeavesAnd(a: AndExpr): seq<Field>
    decreases a, 1
  {
    LeavesUnary(a.left) + LeavesUnaries(a.right)
  }

  function LeavesUnaries(us: seq<Unary>): seq<Field>
    decreases us, 0
  {
    if us == [] then [] else LeavesUnaries(us[..|us| - 1]) + LeavesUnary(us[|us| - 1])
  }

  function LeavesUnary(u: Unary): seq<Field>
    decreases u, 1
  {
    match u
    case SubExpr(e) => LeavesOr(e)
    case Leaf(f) => [f]
  }

  /** How many leaves come before the first that the map does not know. */
  function KnownPrefix(fields: Fields, ls: seq<Field>): (n: nat)
    ensures n <= |ls|
    ensures forall i :: 0 <= i < n ==> ls[i].name in fields
    ensures n < |ls| ==> ls[n].name !in fields
  {
    if ls != [] && ls[0].name in fields then 1 + KnownPrefix(fields, ls[1..]) else 0
  }

  predicate AllKnown(fields: Fields, ls: seq<Field>) {
    forall i :: 0 <= i < |ls| ==> ls[i].name in fields
  }

  function ArgsOf(ls: seq<Field>): (r: seq<string>) {
    seq(|ls|, i requires 0 <= i < |ls| => LeafArg(ls[i]))
  }

  lemma {:induction false} KnownPrefixAppend(fields: Fields, a: seq<Field>, b: seq<Field>)
    ensures KnownPrefix(fields, a + b) ==
      if AllKnown(fields, a) then |a| + KnownPrefix(fields, b) else KnownPrefix(fields, a)
  {
    if a == [] {
      assert a + b == b;
    } else {
      assert (a + b)[1..] == a[1..] + b;
      KnownPrefixAppend(fields, a[1..], b);
      assert AllKnown(fields, a) <==> a[0].name in fields && AllKnown(fields, a[1..]);
    }
  }

  lemma ArgsAppend(a: seq<Field>, b: seq<Field>)
    ensures ArgsOf(a + b) == ArgsOf(a) + ArgsOf(b)
  {
    hide LeafArg;
  }

  /** What building a part comes to, said of its leaves alone. */
  predicate Reports(fields: Fields, built: Built, args: seq<string>, ls: seq<Field>) {
    var k := KnownPrefix(fields, ls);
    && args == ArgsOf(ls[..k])
    && (k == |ls| ==> built.Clause?)
    && (k < |ls| ==> built == UnknownField(ls[k].name))
  }

  predicate ReportsList(fields: Fields, l: EmitList, ls: seq<Field>) {
    var k := KnownPrefix(fields, ls);
    && l.args == ArgsOf(ls[..k])
    && l.unknown == if k < |ls| then Some(ls[k].name) else None
  }

  lemma ReportsThen(fields: Fields, a: seq<Field>, b: seq<Field>)
    ensures var k := KnownPrefix(fields, a + b);
      if AllKnown(fields, a) then
        && ArgsOf((a + b)[..k]) == ArgsOf(a) + ArgsOf(b[..KnownPrefix(fields, b)])
        && (k < |a + b| <==> KnownPrefix(fields, b) < |b|)
        && (k < |a + b| ==> (a + b)[k] == b[KnownPrefix(fields, b)])
      else k == KnownPrefix(fields, a) && (a + b)[..k] == a[..k] && (a + b)[k] == a[k]
  {
    KnownPrefixAppend(fields, a, b);
    var k := KnownPrefix(fields, a + b);
    hide KnownPrefix, LeafArg, ArgsOf;
    if AllKnown(fields, a) {
      assert (a + b)[..k] == a + b[..k - |a|];
      ArgsAppend(a, b[..k - |a|]);
    } else {
      assert KnownPrefix(fields, a) < |a|;
    }
  }

  /** Build fails exactly when some leaf is unmapped, naming the first such leaf; the
      arguments collected are those of the leaves before it, in reading order. */
  lemma {:induction false} EmitOrReports(fields: Fields, e: OrExpr, n: nat)
    ensures Reports(fields, EmitOr(fields, e, n).built, EmitOr(fields, e, n).args, LeavesOr(e))
    decreases e, 1
  {
    EmitOrUnfold(fields, e, n);
    LeavesUnfold(e, e.left);
    hide *;
    EmitAndReports(fields, e.left, n);
    var left := EmitAnd(fields, e.left, n);
    EmitAndsReports(fields, e.right, n + |left.args|);
    ReportsThen(fields, LeavesAnd(e.left), LeavesAnds(e.right));
    CombineReports(fields, left, EmitAnds(fields, e.right, n + |left.args|), " OR ",
      LeavesAnd(e.left), LeavesAnds(e.right));
  }

  lemma CombineReports(fields: Fields, left: Emit, right: EmitList, sep: string, a: seq<Field>, b: seq<Field>)
    requires Reports(fields, left.built, left.args, a) && ReportsList(fields, right, b)
    ensures left.built.Clause? ==>
      Reports(fields, Combine(left, right, sep).built, Combine(left, right, sep).args, a + b)
    ensures left.built.UnknownField? ==> Reports(fields, left.built, left.args, a + b)
  {
    ReportsThen(fields, a, b);
    if left.built.Clause? {
      assert a[..|a|] == a;
      hide ArgsOf, Join;
      assert AllKnown(fields, a);
    }
  }

  lemma ExtendReports(fields: Fields, init: EmitList, last: Emit, a: seq<Field>, b: seq<Field>)
    requires ReportsList(fields, init, a) && Reports(fields, last.built, last.args, b)
    ensures init.unknown.None? ==> ReportsList(fields, Extend(init, last), a + b)
    ensures init.unknown.Some? ==> ReportsList(fields, init, a + b)
  {
    ReportsThen(fields, a, b);
    if init.unknown.None? {
      assert a[..|a|] == a;
      assert AllKnown(fields, a);
    }
  }

  lemma LeavesUnfold(e: OrExpr, a: AndExpr)
    ensures LeavesOr(e) == LeavesAnd(e.left) + LeavesAnds(e.right)
    ensures LeavesAnd(a) == LeavesUnary(a.left) + LeavesUnaries(a.right)
  {}

  lemma ReportsNothing(fields: Fields)
    ensures ReportsList(fields, EmitList([], None, []), [])
  {}

  lemma EmitAndsIs(fields: Fields, xs: seq<AndExpr>, n: nat)
    ensures xs == [] ==> EmitAnds(fields, xs, n) == EmitList([], None, []) && LeavesAnds(xs) == []
    ensures xs != [] ==>
      var front, back := xs[..|xs| - 1], xs[|xs| - 1];
      var init := EmitAnds(fields, front, n);
      && LeavesAnds(xs) == LeavesAnds(front) + LeavesAnd(back)
      && EmitAnds(fields, xs, n) ==
        if init.unknown.Some? then init else Extend(init, EmitAnd(fields, back, n + |init.args|))
  {}

  lemma {:induction false} EmitAndsReports(fields: Fields, xs: seq<AndExpr>, n: nat)
    ensures ReportsList(fields, EmitAnds(fields, xs, n), LeavesAnds(xs))
    decreases xs, 0
  {
    EmitAndsIs(fields, xs, n);
    ReportsNothing(fields);
    hide *;
    if xs != [] {
      var front, back := xs[..|xs| - 1], xs[|xs| - 1];
      var init := EmitAnds(fields, front, n);
      EmitAndsReports(fields, front, n);
      EmitAndReports(fields, back, n + |init.args|);
      ExtendReports(fields, init, EmitAnd(fields, back, n + |init.args|), LeavesAnds(front), LeavesAnd(back));
    }
  }

  lemma {:induction false} EmitAndReports(fields: Fields, a: AndExpr, n: nat)
    ensures Reports(fields, EmitAnd(fields, a, n).built, EmitAnd(fields, a, n).args, LeavesAnd(a))
    decreases a, 1
  {
    EmitAndUnfold(fields, a, n);
    LeavesUnfold(OrExpr(a, []), a);
    hide *;
    EmitUnaryReports(fields, a.left, n);
    var left := EmitUnary(fields, a.left, n);
    EmitUnariesReports(fields, a.right, n + |left.args|);
    CombineReports(fields, left, EmitUnaries(fields, a.right, n + |left.args|), " AND ",
      LeavesUnary(a.left), LeavesUnaries(a.right));
  }

  lemma EmitUnariesIs(fields: Fields, us: seq<Unary>, n: nat)
    ensures us == [] ==> EmitUnaries(fields, us, n) == EmitList([], None, []) && LeavesUnaries(us) == []
    ensures us != [] ==>
      var front, back := us[..|us| - 1], us[|us| - 1];
      var init := EmitUnaries(fields, front, n);
      && LeavesUnaries(us) == LeavesUnaries(front) + LeavesUnary(back)
      && EmitUnaries(fields, us, n) ==
        if init.unknown.Some? then init else Extend(init, EmitUnary(fields, back, n + |init.args|))
  {}

  lemma {:induction false} EmitUnariesReports(fields: Fields, us: seq<Unary>, n: nat)
    ensures ReportsList(fields, EmitUnaries(fields, us, n), LeavesUnaries(us))
    decreases us, 0
  {
    EmitUnariesIs(fields, us, n);
    ReportsNothing(fields);
    hide *;
    if us != [] {
      var front, back := us[..|us| - 1], us[|us| - 1];
      var init := EmitUnaries(fields, front, n);
      EmitUnariesReports(fields, front, n);
      EmitUnaryReports(fields, back, n + |init.args|);
      ExtendReports(fields, init, EmitUnary(fields, back, n + |init.args|), LeavesUnaries(front), LeavesUnary(back));
    }
  }

  lemma {:induction false} EmitUnaryReports(fields: Fields, u: Unary, n: nat)
    ensures Reports(fields, EmitUnary(fields, u, n).built, EmitUnary(fields, u, n).args, LeavesUnary(u))
    decreases u, 1
  {
    match u
    case SubExpr(e) => EmitOrReports(fields, e, n);
    case Leaf(f) =>
      assert ArgsOf([f]) == [LeafArg(f)];
      assert [f][..1] == [f];
  }
}

/** The compiler from query trees to WHERE text and arguments. */
module Builder {
  import opened Text
  import opened QueryAst

  datatype FieldMapping = FieldMapping(column: string, isArray: bool)

  type Fields = map<string, FieldMapping>

  const SSH_FIELDS: Fields := map[
    "id" := FieldMapping("pk.id", false),
    "fingerprint" := FieldMapping("pk.fingerprint", false),
    "algorithm" := FieldMapping("sm.algorithm", false),
    "comment" := FieldMapping("sm.comment", false),
    "key_bits" := FieldMapping("sm.key_bits", false),
    "source.username" := FieldMapping("s.username", false),
    "source.provider" := FieldMapping("s.provider", false),
    "source.user_id" := FieldMapping("s.user_id", false),
    "source.uri" := FieldMapping("s.uri", false)]

  const GPG_FIELDS: Fields := map[
    "id" := FieldMapping("pk.id", false),
    "fingerprint" := FieldMapping("pk.fingerprint", false),
    "algorithm" := FieldMapping("gm.algorithm", false),
    "key_bits" := FieldMapping("gm.key_bits", false),
    "user_ids" := FieldMapping("gm.user_ids", true),
    "capabilities" := FieldMapping("gm.capabilities", true),
    "source.username" := FieldMapping("s.username", false),
    "source.provider" := FieldMapping("s.provider", false),
    "source.user_id" := FieldMapping("s.user_id", false),
    "source.uri" := FieldMapping("s.uri", false)]

  /** What building gives: a clause, or the name of a field the map does not know. */
  datatype Built = Clause(text: string) | UnknownField(name: string)

  /** The outcome of building a part whose first placeholder is $n, with the arguments it
      added. A failed part keeps the arguments added before it failed. */
  datatype Emit = Emit(built: Built, args: seq<string>)

  datatype EmitList = EmitList(parts: seq<string>, unknown: Option<string>, args: seq<string>)

  /** strings.ReplaceAll(value, "*", "%") */
  function StarsToPercents(s: string): (r: string)
    ensures |r| == |s|
  {
    if s == "" then "" else [if s[0] == '*' then '%' else s[0]] + StarsToPercents(s[1..])
  }

  /** The argument a leaf binds. */
  function LeafArg(f: Field): string {
    var value := Unescaped(f.raw, false);
    if BareStar(f.raw, false) then StarsToPercents(value) else value
  }

  function Placeholder(n: nat): string {
    "$" + Itoa(n)
  }

  function LeafText(m: FieldMapping, wildcard: bool, n: nat): string {
    if m.isArray then
      if wildcard then
        "EXISTS (SELECT 1 FROM unnest(" + m.column + ") AS elem WHERE elem LIKE " + Placeholder(n) + ")"
      else Placeholder(n) + " = ANY(" + m.column + ")"
    else if wildcard then m.column + " LIKE " + Placeholder(n)
    else m.column + " = " + Placeholder(n)
  }

  function EmitField(fields: Fields, f: Field, n: nat): Emit {
    if f.name !in fields then Emit(UnknownField(f.name), [])
    else Emit(Clause(LeafText(fields[f.name], BareStar(f.raw, false), n)), [LeafArg(f)])
  }

  /** A first clause and those after it, in parentheses when there is more than one. */
  function Combine(left: Emit, right: EmitList, sep: string): Emit
    requires left.built.Clause?
  {
    var args := left.args + right.args;
    if right.unknown.Some? then Emit(UnknownField(right.unknown.value), args)
    else if right.parts == [] then Emit(left.built, args)
    else Emit(Clause("(" + Join([left.built.text] + right.parts, sep) + ")"), args)
  }

  /** A list of parts with one more built after it; nothing is built after a failure. */
  function Extend(init: EmitList, last: Emit): EmitList
    requires init.unknown.None?
  {
    match last.built
    case Clause(text) => EmitList(init.parts + [text], None, init.args + last.args)
    case UnknownField(name) => EmitList(init.parts, Some(name), init.args + last.args)
  }

  function EmitUnary(fields: Fields, u: Unary, n: nat): Emit
    decreases u, 1
  {
    match u
    case SubExpr(e) => EmitOr(fields, e, n)
    case Leaf(f) => EmitField(fields, f, n)
  }

  function EmitUnaries(fields: Fields, us: seq<Unary>, n: nat): EmitList
    decreases us, 0
  {
    if us == [] then EmitList([], None, [])
    else
      var k := |us| - 1;
      var init := EmitUnaries(fields, us[..k], n);
      if init.unknown.Some? then init
      else Extend(init, EmitUnary(fields, us[k], n + |init.args|))
  }

  function EmitAnd(fields: Fields, a: AndExpr, n: nat): Emit
    decreases a, 1
  {
    var left := EmitUnary(fields, a.left, n);
    if left.built.UnknownField? then left
    else Combine(left, EmitUnaries(fields, a.right, n + |left.args|), " AND ")
  }

  function EmitAnds(fields: Fields, xs: seq<AndExpr>, n: nat): EmitList
    decreases xs, 0
  {
    if xs == [] then EmitList([], None, [])
    else
      var k := |xs| - 1;
      var init := EmitAnds(fields, xs[..k], n);
      if init.unknown.Some? then init
      else Extend(init, EmitAnd(fields, xs[k], n + |init.args|))
  }

  function EmitOr(fields: Fields, e: OrExpr, n: nat): Emit
    decreases e, 1
  {
    var left := EmitAnd(fields, e.left, n);
    if left.built.UnknownField? then left
    else Combine(left, EmitAnds(fields, e.right, n + |left.args|), " OR ")
  }

  lemma {:induction false} EmitUnariesStop(fields: Fields, us: seq<Unary>, n: nat, i: nat)
    requires i <= |us| && EmitUnaries(fields, us[..i], n).unknown.Some?
    ensures EmitUnaries(fields, us, n) == EmitUnaries(fields, us[..i], n)
    decreases |us|
  {
    if i == |us| {
      assert us[..i] == us;
    } else {
      assert us[..|us| - 1][..i] == us[..i];
      EmitUnariesStop(fields, us[..|us| - 1], n, i);
    }
  }

  lemma {:induction false} EmitAndsStop(fields: Fields, xs: seq<AndExpr>, n: nat, i: nat)
    requires i <= |xs| && EmitAnds(fields, xs[..i], n).unknown.Some?
    ensures EmitAnds(fields, xs, n) == EmitAnds(fields, xs[..i], n)
    decreases |xs|
  {
    if i == |xs| {
      assert xs[..i] == xs;
    } else {
      assert xs[..|xs| - 1][..i] == xs[..i];
      EmitAndsStop(fields, xs[..|xs| - 1], n, i);
    }
  }

  lemma EmitAndUnfold(fields: Fields, e: AndExpr, n: nat)
    ensures var left := EmitUnary(fields, e.left, n);
      EmitAnd(fields, e, n) ==
        if left.built.UnknownField? then left
        else Combine(left, EmitUnaries(fields, e.right, n + |left.args|), " AND ")
  {}

  lemma EmitUnariesUnfold(fields: Fields, xs: seq<Unary>, n: nat, i: nat)
    requires i < |xs| && EmitUnaries(fields, xs[..i], n).unknown.None?
    ensures var init := EmitUnaries(fields, xs[..i], n);
      EmitUnaries(fields, xs[..i + 1], n) == Extend(init, EmitUnary(fields, xs[i], n + |init.args|))
  {
    assert xs[..i + 1][..i] == xs[..i];
  }

  lemma EmitOrUnfold(fields: Fields, e: OrExpr, n: nat)
    ensures var left := EmitAnd(fields, e.left, n);
      EmitOr(fields, e, n) ==
        if left.built.UnknownField? then left
        else Combine(left, EmitAnds(fields, e.right, n + |left.args|), " OR ")
  {}

  lemma EmitAndsUnfold(fields: Fields, xs: seq<AndExpr>, n: nat, i: nat)
    requires i < |xs| && EmitAnds(fields, xs[..i], n).unknown.None?
    ensures var init := EmitAnds(fields, xs[..i], n);
      EmitAnds(fields, xs[..i + 1], n) == Extend(init, EmitAnd(fields, xs[i], n + |init.args|))
  {
    assert xs[..i + 1][..i] == xs[..i];
  }

  lemma EmitNothing(fields: Fields, us: seq<Unary>, xs: seq<AndExpr>, n: nat)
    ensures us == [] ==> EmitUnaries(fields, us, n) == EmitList([], None, [])
    ensures xs == [] ==> EmitAnds(fields, xs, n) == EmitList([], None, [])
  {}

  class BuildContext {
    const fields: Fields
    var args: seq<string>
    var argIndex: nat

    /** The next placeholder is always one past the arguments collected so far. */
    predicate Valid()
      reads this
    {
      argIndex == |args| + 1
    }

    constructor (fields: Fields)
      ensures this.fields == fields && args == [] && Valid()
    {
      this.fields := fields;
      args, argIndex := [], 1;
    }

    method AddArg(value: string) returns (placeholder: string)
      requires Valid()
      modifies this
      ensures Valid()
      ensures args == old(args) + [value]
      ensures placeholder == Placeholder(|args|)
    {
      args := args + [value];
      placeholder := Placeholder(argIndex);
      argIndex := argIndex + 1;
    }

    method BuildOrExpr(expr: OrExpr) returns (built: Built)
      requires Valid()
      modifies this
      ensures Valid()
      ensures var e := EmitOr(fields, expr, old(argIndex)); built == e.built && args == old(args) + e.args
      decreases expr, 1
    {
      EmitOrUnfold(fields, expr, argIndex);
      hide EmitOr, EmitAnd, EmitAnds, Join;
      built := BuildAndExpr(expr.left);
      EmitNothing(fields, [], expr.right[..0], argIndex);
      assert expr.right == [] ==> expr.right == expr.right[..0];
      if built.UnknownField? || |expr.right| == 0 {
        return;
      }

      ghost var first, k := args, argIndex;
      var parts := [built.text];
      for i := 0 to |expr.right|
        invariant Valid()
        invariant |parts| == i + 1 && parts[0] == built.text
        invariant var l := EmitAnds(fields, expr.right[..i], k);
          l.unknown.None? && l.parts == parts[1..] && args == first + l.args
      {
        EmitAndsUnfold(fields, expr.right, k, i);
        var clause := BuildAndExpr(expr.right[i]);
        if clause.UnknownField? {
          EmitAndsStop(fields, expr.right, k, i + 1);
          return clause;
        }
        parts := parts + [clause.text];
      }
      assert expr.right[..|expr.right|] == expr.right;
      assert parts == [built.text] + parts[1..];
      built := Clause("(" + Join(parts, " OR ") + ")");
    }

    method BuildAndExpr(expr: AndExpr) returns (built: Built)
      requires Valid()
      modifies this
      ensures Valid()
      ensures var e := EmitAnd(fields, expr, old(argIndex)); built == e.built && args == old(args) + e.args
      decreases expr, 1
    {
      EmitAndUnfold(fields, expr, argIndex);
      hide EmitUnary, EmitAnd, EmitUnaries, Join;
      built := BuildUnary(expr.left);
      EmitNothing(fields, expr.right[..0], [], argIndex);
      assert expr.right == [] ==> expr.right == expr.right[..0];
      if built.UnknownField? || |expr.right| == 0 {
        return;
      }

      ghost var first, k := args, argIndex;
      var parts := [built.text];
      for i := 0 to |expr.right|
        invariant Valid()
        invariant |parts| == i + 1 && parts[0] == built.text
        invariant var l := EmitUnaries(fields, expr.right[..i], k);
          l.unknown.None? && l.parts == parts[1..] && args == first + l.args
      {
        EmitUnariesUnfold(fields, expr.right, k, i);
        var clause := BuildUnary(expr.right[i]);
        if clause.UnknownField? {
          EmitUnariesStop(fields, expr.right, k, i + 1);
          return clause;
        }
        parts := parts + [clause.text];
      }
      assert expr.right[..|expr.right|] == expr.right;
      assert parts == [built.text] + parts[1..];
      built := Clause("(" + Join(parts, " AND ") + ")");
    }

    method BuildUnary(u: Unary) returns (built: Built)
      requires Valid()
      modifies this
      ensures Valid()
      ensures var e := EmitUnary(fields, u, old(argIndex)); built == e.built && args == old(args) + e.args
      decreases u, 1
    {
      match u
      case SubExpr(e) => built := BuildOrExpr(e);
      case Leaf(f) => built := BuildField(f);
    }

    method BuildField(f: Field) returns (built: Built)
      requires Valid()
      modifies this
      ensures Valid()
      ensures var e := EmitField(fields, f, old(argIndex)); built == e.built && args == old(args) + e.args
    {
      if f.name !in fields {
        return UnknownField(f.name);
      }
      var mapping := fields[f.name];
      var value := Unescape(f.raw);
      var hasWildcard := HasWildcard(f.raw);
      var text: string;
      if mapping.isArray {
        text := BuildArrayCondition(mapping.column, value, hasWildcard);
      } else {
        text := BuildScalarCondition(mapping.column, value, hasWildcard);
      }
      built := Clause(text);
    }

    method BuildScalarCondition(column: string, value: string, hasWildcard: bool) returns (text: string)
      requires Valid()
      modifies this
      ensures Valid()
      ensures text == LeafText(FieldMapping(column, false), hasWildcard, old(argIndex))
      ensures args == old(args) + [if hasWildcard then StarsToPercents(value) else value]
    {
      if hasWildcard {
        var placeholder := AddArg(StarsToPercents(value));
        text := column + " LIKE " + placeholder;
      } else {
        var placeholder := AddArg(value);
        text := column + " = " + placeholder;
      }
    }

    method BuildArrayCondition(column: string, value: string, hasWildcard: bool) returns (text: string)
      requires Valid()
      modifies this
      ensures Valid()
      ensures text == LeafText(FieldMapping(column, true), hasWildcard, old(argIndex))
      ensures args == old(args) + [if hasWildcard then StarsToPercents(value) else value]
    {
      if hasWildcard {
        var placeholder := AddArg(StarsToPercents(value));
        text := "EXISTS (SELECT 1 FROM unnest(" + column + ") AS elem WHERE elem LIKE " + placeholder + ")";
      } else {
        var placeholder := AddArg(value);
        text := placeholder + " = ANY(" + column + ")";
      }
    }
  }

  /** Builder.Build: no query gives no clause, and a failure gives no arguments. */
  method Build(fields: Fields, q: Option<OrExpr>) returns (built: Built, args: seq<string>)
    ensures q.None? ==> built == Clause("") && args == []
    ensures q.Some? ==>
      var e := EmitOr(fields, q.value, 1);
      built == e.built && args == if e.built.Clause? then e.args else []
  {
    if q.None? {
      return Clause(""), [];
    }
    var ctx := new BuildContext(fields);
    built := ctx.BuildOrExpr(q.value);
    if built.UnknownField? {
      return built, [];
    }
    assert ctx.args[0..] == ctx.args;
    args := ctx.args;
  }
}

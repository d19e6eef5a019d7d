/** What a basic search finds: the rows where some listed field contains the term, exactly
    when the term has no backslash, star, underscore or blank. */
module BasicSearch {
  import opened Text
  import opened Keys
  import opened QueryAst
  import opened Builder
  import opened Leaves
  import opened Wildcard
  import opened Meaning
  import opened Statement
  import opened BasicQuery
  import opened BasicShape
  import Sql

  /** The terms basic search takes literally. */
  predicate Simple(term: string) {
    forall c :: c in term ==> c !in TROUBLE && !In(c, Blank)
  }

  /** What the term and the star after it come to as a pattern, with or without a backslash
      pending from before. */
  function Tail(t: string, escaped: bool): string {
    StarsToPercents(Unescaped(Strip(Escape(t) + "*"), escaped))
  }

  lemma StripStep(c: char, s: string)
    ensures Strip([c] + s) == if In(c, Blank) then Strip(s) else [c] + Strip(s)
    ensures !In('\\', Blank) && Strip(['\\', c] + s) == ['\\'] + Strip([c] + s)
  {
    assert ([c] + s)[1..] == s;
    assert (['\\', c] + s)[1..] == [c] + s;
  }

  lemma PatternChar(c: char, s: string, escaped: bool)
    ensures StarsToPercents([c] + s) == [if c == '*' then '%' else c] + StarsToPercents(s)
    ensures escaped || c != '\\' ==> Unescaped([c] + s, escaped) == [c] + Unescaped(s, false)
    ensures Unescaped(['\\'] + s, false) == Unescaped(s, true)
  {
    assert ([c] + s)[1..] == s;
    assert (['\\'] + s)[1..] == s;
  }

  lemma SpecialsShow(c: char)
    requires Special(c)
    ensures c != '\\' && c != '_' && !In(c, Blank)
  {}

  lemma TailUnfold(t: string, escaped: bool)
    requires t != ""
    ensures var c, more := t[0], t[1..];
      Tail(t, escaped) ==
        if Special(c) then
          (if escaped then "\\" else "") + ([if c == '*' then '%' else c] + Tail(more, false))
        else if In(c, Blank) then Tail(more, escaped)
        else if c == '\\' && !escaped then Tail(more, true)
        else [c] + Tail(more, false)
    ensures t == [t[0]] + t[1..]
  {
    var c, s := t[0], Escape(t[1..]) + "*";
    EscapeCons(t, "*");
    hide Escape, Strip, Unescaped, StarsToPercents, Special, In;
    if Special(c) {
      TailSpecial(c, s, escaped);
      assert "" + ([if c == '*' then '%' else c] + Tail(t[1..], false)) ==
        [if c == '*' then '%' else c] + Tail(t[1..], false);
    } else {
      TailPlain(c, s, escaped);
    }
  }

  lemma TailSpecial(c: char, s: string, escaped: bool)
    requires Special(c)
    ensures StarsToPercents(Unescaped(Strip(['\\', c] + s), escaped)) ==
      (if escaped then "\\" else "")
      + ([if c == '*' then '%' else c] + StarsToPercents(Unescaped(Strip(s), false)))
  {
    SpecialsShow(c);
    hide *;
    StripStep(c, s);
    PatternChar(c, Strip(s), false);
    PatternChar(c, Strip(s), true);
    PatternChar('\\', [c] + Strip(s), true);
    PatternChar('\\', Unescaped([c] + Strip(s), false), false);
    PatternChar(c, Unescaped(Strip(s), false), false);
    assert "\\" == ['\\'];
    var more := [if c == '*' then '%' else c] + StarsToPercents(Unescaped(Strip(s), false));
    assert "" + more == more;
  }

  lemma TailPlain(c: char, s: string, escaped: bool)
    requires !Special(c)
    ensures StarsToPercents(Unescaped(Strip([c] + s), escaped)) ==
      if In(c, Blank) then StarsToPercents(Unescaped(Strip(s), escaped))
      else if c == '\\' && !escaped then StarsToPercents(Unescaped(Strip(s), true))
      else [c] + StarsToPercents(Unescaped(Strip(s), false))
  {
    StarIsSpecial(c);
    hide *;
    StripStep(c, s);
    PatternChar(c, Strip(s), escaped);
    PatternChar(c, Unescaped(Strip(s), false), false);
  }

  lemma StarIsSpecial(c: char)
    ensures c == '*' ==> Special(c)
  {}

  lemma TailEmpty(escaped: bool)
    ensures Tail("", escaped) == "%"
  {
    EscapeNothing("*");
    StripStep('*', "");
    PatternChar('*', "", escaped);
    assert "*" == ['*'] + "" && "%" == ['%'] + "";
  }

  const SLASHY: set<char> := {'_', '\\'}

  predicate PatternLike(p: string) {
    && p != "" && p[|p| - 1] == '%' && '*' !in p
    && forall c :: c in p ==> !In(c, Blank)
  }

  lemma PatternLikeCons(c: char, p: string)
    requires PatternLike(p) && c != '*' && !In(c, Blank)
    ensures PatternLike([c] + p)
    ensures Count(TROUBLE, [c] + p) == (if c in TROUBLE then 1 else 0) + Count(TROUBLE, p)
  {
    assert ([c] + p)[1..] == p;
  }

  lemma CountCons(c: char, s: string)
    ensures Count(SLASHY, [c] + s) == (if c in SLASHY then 1 else 0) + Count(SLASHY, s)
  {
    assert ([c] + s)[1..] == s;
  }

  lemma Neutral(c: char)
    ensures Special(c) ==> c != '_' && c != '\\' && !In(c, Blank)
    ensures !Special(c) ==> c != '*'
    ensures '%' !in TROUBLE && !In('%', Blank) && !In('\\', Blank)
    ensures In(c, Blank) ==> c !in SLASHY
    ensures c in TROUBLE <==> c == '_' || c == '*' || c == '\\'
  {}

  /** Unescaping takes away at least the backslashes that escaping adds. */
  lemma {:induction false} TailHolds(t: string, escaped: bool)
    ensures PatternLike(Tail(t, escaped))
    ensures Count(TROUBLE, Tail(t, escaped)) <= Count(SLASHY, t) + if escaped then 1 else 0
  {
    if t == "" {
      TailEmpty(escaped);
    } else {
      var c, more := t[0], t[1..];
      TailHolds(more, true);
      TailHolds(more, false);
      TailUnfold(t, escaped);
      CountCons(c, more);
      Neutral(c);
      hide Tail, PatternLike, Special, In, Count;
      if Special(c) {
        var d := if c == '*' then '%' else c;
        PatternLikeCons(d, Tail(more, false));
        PatternLikeCons('\\', [d] + Tail(more, false));
        assert "" + ([d] + Tail(more, false)) == [d] + Tail(more, false);
        assert "\\" == ['\\'];
      } else if !In(c, Blank) && !(c == '\\' && !escaped) {
        PatternLikeCons(c, Tail(more, false));
      }
    }
  }

  lemma {:induction false} PercentLastIsOk(p: string)
    requires p != "" && p[|p| - 1] != '\\'
    ensures Sql.PatternOk(p)
  {
    if p[0] == '\\' {
      if |p| > 2 {
        PercentLastIsOk(p[2..]);
      }
    } else if |p| > 1 {
      PercentLastIsOk(p[1..]);
    }
  }

  /** The leaf of a basic search is a pattern between percent signs, and one the server
      always takes. */
  lemma BasicLeaf(term: string)
    ensures BareStar(BasicRaw(term), false)
    ensures LeafArg(Field("", BasicRaw(term))) == "%" + Tail(term, false)
    ensures Sql.PatternOk("%" + Tail(term, false))
  {
    var s := Escape(term) + "*";
    BracedEnds(term);
    StripStep('*', s);
    assert "*" == ['*'] && "%" == ['%'];
    PatternChar('*', Strip(s), false);
    PatternChar('*', Unescaped(Strip(s), false), false);
    TailHolds(term, false);
    PercentLastIsOk("%" + Tail(term, false));
    hide Strip, Escape, Unescaped, StarsToPercents, Braced, Sql.PatternOk;
    assert (['*'] + Strip(s))[1..] == Strip(s);
  }

  lemma BasicAccepts(term: string, v: string)
    ensures LeafAccepts(BasicRaw(term), v) <==> Sql.LikeMatches("%" + Tail(term, false), v)
  {
    BasicLeaf(term);
    hide BareStar, Unescaped, StarsToPercents, BasicRaw, Tail, Sql.LikeMatches;
  }

  lemma {:induction false} SimpleTail(t: string)
    requires Simple(t)
    ensures Tail(t, false) == t + "%"
  {
    if t == "" {
      TailEmpty(false);
    } else {
      SimpleCons(t);
      SimpleTail(t[1..]);
      TailUnfold(t, false);
      hide Tail, Simple, Special, In;
      assert "" + ([t[0]] + (t[1..] + "%")) == t + "%";
    }
  }

  lemma SimpleCons(t: string)
    requires Simple(t) && t != ""
    ensures Simple(t[1..]) && t[0] != '*' && t[0] != '\\' && t[0] != '_' && !In(t[0], Blank)
  {
    assert t[0] in t;
  }

  /** LIKE between percent signs is the substring test. */

  lemma {:induction false} PercentTakesAll(v: string)
    ensures Sql.LikeMatches("%", v)
  {
    if v == "" {
      assert Sql.LikeMatches("%"[1..], v);
    } else {
      PercentTakesAll(v[1..]);
    }
  }

  predicate Literal(t: string) {
    forall c :: c in t ==> c != '%' && c != '_' && c != '\\'
  }

  lemma {:induction false} LikePrefix(t: string, v: string)
    requires Literal(t)
    ensures Sql.LikeMatches(t + "%", v) <==> t <= v
  {
    if t == "" {
      assert t + "%" == "%";
      PercentTakesAll(v);
    } else {
      assert t[0] in t && forall c :: c in t[1..] ==> c in t;
      assert (t + "%")[1..] == t[1..] + "%";
      if v != "" {
        LikePrefix(t[1..], v[1..]);
        PrefixCons(t, v);
      }
    }
  }

  lemma PrefixCons(t: string, v: string)
    requires t != "" && v != ""
    ensures t <= v <==> t[0] == v[0] && t[1..] <= v[1..]
  {
    if t[0] == v[0] && t[1..] <= v[1..] {
      assert v == [v[0]] + v[1..] && t == [t[0]] + t[1..];
    }
  }

  lemma {:induction false} LikeContains(t: string, v: string)
    requires Literal(t)
    ensures Sql.LikeMatches("%" + (t + "%"), v) <==> Contains(v, t)
  {
    assert ("%" + (t + "%"))[1..] == t + "%";
    LikePrefix(t, v);
    if v != "" {
      LikeContains(t, v[1..]);
    }
  }

  /** Nothing the lexer takes holds a percent sign. */

  lemma {:induction false} ValueTextChars(s: string, inIdent: bool)
    requires IsValueText(s, inIdent)
    ensures '%' !in s
  {
    if s != "" {
      if s[0] == '\\' {
        ValueTextChars(s[2..], false);
        assert s == [s[0], s[1]] + s[2..];
      } else {
        ValueTextChars(s[1..], In(s[0], IdentStart) || s[0] == '-' || (inIdent && (In(s[0], Digit) || s[0] == '.')));
        assert s == [s[0]] + s[1..];
      }
    }
  }

  lemma {:induction false} StripHolds(t: string, c: char)
    requires c in t && !In(c, Blank)
    ensures c in Strip(Escape(t) + "*")
  {
    EscapeCons(t, "*");
    StripStep(t[0], Escape(t[1..]) + "*");
    hide Escape, Strip, Special, In;
    if t[0] != c {
      StripHolds(t[1..], c);
    }
  }

  lemma AcceptedRaw(term: string)
    requires Accepted(term)
    ensures IsValueText(BasicRaw(term), false) && BasicRaw(term) != ""
    ensures Simple(term) ==> Literal(term)
  {
    BracedIsGuarded(term, false);
    QueryAst.TokensAreValueText(TermToks(term));
    ValueTextChars(BasicRaw(term), false);
    BracedEnds(term);
    StripStep('*', Escape(term) + "*");
    assert "*" == ['*'];
    hide Accepted, IsValueText, Strip, Braced, Escape, TermToks;
    if Simple(term) && '%' in term {
      StripHolds(term, '%');
    }
  }

  /** The shortest text the pattern matches, for a term that is not simple, is one the term
      does not occur in. */

  lemma {:induction false} ShortestChars(p: string, c: char)
    requires c in Shortest(p) && c != 'a'
    ensures c in p
  {
    if p[0] == '\\' {
      if |p| >= 2 && p[1] != c {
        ShortestChars(p[2..], c);
      }
    } else if p[0] == '%' || p[0] != c {
      ShortestChars(p[1..], c);
    }
  }

  lemma {:induction false} ContainsChars(s: string, needle: string, c: char)
    requires Contains(s, needle) && c in needle
    ensures c in s
  {
    if !(needle <= s) {
      ContainsChars(s[1..], needle, c);
    }
  }

  lemma {:induction false} CountMore(s: string)
    ensures Count(SLASHY, s) <= Count(TROUBLE, s)
  {
    if s != "" {
      CountMore(s[1..]);
    }
  }

  lemma {:induction false} SomeTrouble(t: string, c: char)
    requires c in t && c in TROUBLE
    ensures Count(TROUBLE, t) > 0
  {
    if t[0] != c {
      SomeTrouble(t[1..], c);
    }
  }

  lemma OddMatch(term: string)
    requires !Simple(term)
    ensures !Contains(Shortest("%" + Tail(term, false)), term)
  {
    var p := Tail(term, false);
    var v := Shortest("%" + p);
    TailHolds(term, false);
    ShortestHolds(p);
    CountMore(term);
    assert v == Shortest(p) by { assert ("%" + p)[1..] == p; }
    if Contains(v, term) {
      ContainsCount(TROUBLE, v, term);
      hide Tail, Shortest, Count, Contains;
      var c :| c in term && (c in TROUBLE || In(c, Blank));
      if c in TROUBLE {
        SomeTrouble(term, c);
      } else {
        ContainsChars(v, term, c);
        ShortestChars(p, c);
      }
    }
  }

  /** Of the terms the parser accepts, basic search means "contains the term" for the simple
      ones and for no other. */
  lemma SubstringExactly(term: string)
    requires Accepted(term)
    ensures (forall v :: LeafAccepts(BasicRaw(term), v) <==> Contains(v, term)) <==> Simple(term)
  {
    AcceptedRaw(term);
    BasicLeaf(term);
    if Simple(term) {
      SimpleTail(term);
      hide *;
      forall v
        ensures LeafAccepts(BasicRaw(term), v) <==> Contains(v, term)
      {
        BasicAccepts(term, v);
        LikeContains(term, v);
      }
    } else {
      var v := Shortest("%" + Tail(term, false));
      hide *;
      OddMatch(term);
      ShortestMatches("%" + Tail(term, false));
      BasicAccepts(term, v);
      assert LeafAccepts(BasicRaw(term), v) && !Contains(v, term);
    }
  }

  /** Over rows. */

  predicate CellContains(cell: Sql.Cell, term: string) {
    match cell
    case Null => false
    case Txt(v) => Contains(v, term)
    case Array(es) => exists i :: 0 <= i < |es| && es[i].Some? && Contains(es[i].value, term)
  }

  predicate FieldContains(k: KeyType, name: string, term: string, row: Sql.Row) {
    && name in FieldsFor(k) && FieldsFor(k)[name].column in row
    && CellContains(row[FieldsFor(k)[name].column], term)
  }

  lemma OneMeans(k: KeyType, f: Field, row: Sql.Row)
    ensures MeansAnd(AsCompiled, FieldsFor(k), AndExpr(Leaf(f), []), row) <==>
      MeansField(AsCompiled, FieldsFor(k), f, row)
  {
    hide FieldsFor, MeansField;
  }

  lemma CellMeans(raw: string, term: string, cell: Sql.Cell)
    requires forall v :: LeafAccepts(raw, v) <==> Contains(v, term)
    ensures CellContains(cell, term) <==>
      match cell
      case Null => false
      case Txt(v) => Accepts(AsCompiled, raw, v)
      case Array(es) => exists i :: 0 <= i < |es| && es[i].Some? && Accepts(AsCompiled, raw, es[i].value)
  {
    hide LeafAccepts, Contains;
    if cell.Array? {
      var es := cell.elems;
      if i :| 0 <= i < |es| && es[i].Some? && Accepts(AsCompiled, raw, es[i].value) {
        assert Contains(es[i].value, term);
      }
      if i :| 0 <= i < |es| && es[i].Some? && Contains(es[i].value, term) {
        assert Accepts(AsCompiled, raw, es[i].value);
      }
    }
  }

  lemma LeafContains(k: KeyType, name: string, term: string, row: Sql.Row)
    requires Accepted(term) && Simple(term)
    ensures MeansAnd(AsCompiled, FieldsFor(k), One(name, BasicRaw(term)), row) <==>
      FieldContains(k, name, term, row)
  {
    var raw := BasicRaw(term);
    SubstringExactly(term);
    OneMeans(k, Field(name, raw), row);
    hide LeafAccepts, Contains, Accepted, Simple, FieldsFor, BasicRaw, MeansAnd, CellContains, Accepts;
    if name in FieldsFor(k) && FieldsFor(k)[name].column in row {
      CellMeans(raw, term, row[FieldsFor(k)[name].column]);
    }
  }

  lemma {:induction false} OnesContain(k: KeyType, fields: seq<string>, term: string, row: Sql.Row)
    requires Accepted(term) && Simple(term)
    ensures MeansAny(AsCompiled, FieldsFor(k), Ones(fields, BasicRaw(term)), row) <==>
      exists i :: 0 <= i < |fields| && FieldContains(k, fields[i], term, row)
  {
    hide Accepted, Simple, BasicRaw, MeansAnd, FieldContains, FieldsFor, One;
    var xs := Ones(fields, BasicRaw(term));
    OnesAt(fields, BasicRaw(term));
    forall i | 0 <= i < |fields|
      ensures MeansAnd(AsCompiled, FieldsFor(k), xs[i], row) <==> FieldContains(k, fields[i], term, row)
    {
      LeafContains(k, fields[i], term, row);
    }
  }

  lemma {:induction false} OnesAt(fields: seq<string>, raw: string)
    ensures |Ones(fields, raw)| == |fields|
    ensures forall i :: 0 <= i < |fields| ==> Ones(fields, raw)[i] == One(fields[i], raw)
  {
    if fields != [] {
      OnesAt(fields[1..], raw);
    }
  }

  /** The rows a basic search is for: some listed field, or some element of a listed array
      field, contains the term. */
  lemma BasicFinds(k: KeyType, term: string, fields: seq<string>, row: Sql.Row)
    requires Accepted(term) && Simple(term) && fields != []
    ensures MeansOr(AsCompiled, FieldsFor(k), BasicTree(term, fields), row) <==>
      exists i :: 0 <= i < |fields| && FieldContains(k, fields[i], term, row)
  {
    LeafContains(k, fields[0], term, row);
    OnesContain(k, fields[1..], term, row);
    hide Accepted, Simple, BasicRaw, MeansAnd, FieldContains, FieldsFor, One, Ones;
    assert forall i :: 1 <= i < |fields| ==> fields[1..][i - 1] == fields[i];
    assert forall i :: 0 <= i < |fields[1..]| ==> fields[1..][i] == fields[i + 1];
  }

  lemma {:induction false} OnesLeaves(fields: seq<string>, raw: string)
    ensures LeavesAnds(Ones(fields, raw)) == LeavesList(fields, raw)
  {
    OnesAt(fields, raw);
    if fields != [] {
      var front := fields[..|fields| - 1];
      OnesAt(front, raw);
      OnesLeaves(front, raw);
      assert Ones(fields, raw)[..|front|] == Ones(front, raw);
      assert LeavesAnd(One(fields[|front|], raw)) == [Field(fields[|front|], raw)];
    }
  }

  function LeavesList(fields: seq<string>, raw: string): seq<Field> {
    seq(|fields|, i requires 0 <= i < |fields| => Field(fields[i], raw))
  }

  lemma BasicLeaves(term: string, fields: seq<string>)
    requires fields != []
    ensures LeavesOr(BasicTree(term, fields)) == LeavesList(fields, BasicRaw(term))
  {
    var raw := BasicRaw(term);
    OnesLeaves(fields[1..], raw);
    assert LeavesAnd(One(fields[0], raw)) == [Field(fields[0], raw)];
    hide LeavesAnds, Ones, BasicRaw, LeavesAnd;
    assert LeavesOr(BasicTree(term, fields)) == [Field(fields[0], raw)] + LeavesList(fields[1..], raw);
  }

  /** The server takes every pattern a basic search sends. */
  lemma BasicPatternsOk(term: string, fields: seq<string>)
    requires fields != []
    ensures PatternsOk(LeavesOr(BasicTree(term, fields)))
  {
    BasicLeaf(term);
    BasicLeaves(term, fields);
    SameArg(BasicRaw(term));
    hide LeavesOr, BasicTree, BasicRaw, Sql.PatternOk, BareStar, LeafArg, Tail;
  }

  lemma SameArg(raw: string)
    ensures forall name :: LeafArg(Field(name, raw)) == LeafArg(Field("", raw))
  {
    hide BareStar, Unescaped, StarsToPercents;
  }
}

/** Wildcards: the glob a value spells, the LIKE pattern it is compiled to, and exactly when
    the two agree. */
module Wildcard {
  import opened Text
  import opened QueryAst
  import opened Builder
  import opened Sql
  import QueryLexer

  /** A value as its user reads it: a bare star is any string, an escaped character itself. */
  datatype Item = Any | Lit(c: char)

  function Items(raw: string, escaped: bool): seq<Item> {
    if raw == "" then []
    else if escaped then [Lit(raw[0])] + Items(raw[1..], false)
    else if raw[0] == '\\' then Items(raw[1..], true)
    else [if raw[0] == '*' then Any else Lit(raw[0])] + Items(raw[1..], false)
  }

  predicate GlobMatches(items: seq<Item>, s: string)
    decreases |items| + |s|
  {
    if items == [] then s == ""
    else if items[0] == Any then
      GlobMatches(items[1..], s) || (s != "" && GlobMatches(items, s[1..]))
    else
      s != "" && s[0] == items[0].c && GlobMatches(items[1..], s[1..])
  }

  /** The items written out, a star for Any. */
  function Spelled(items: seq<Item>): string {
    if items == [] then ""
    else [if items[0] == Any then '*' else items[0].c] + Spelled(items[1..])
  }

  /** The pattern the builder binds for these items. */
  function Pattern(items: seq<Item>): string {
    StarsToPercents(Spelled(items))
  }

  lemma {:induction false} ItemsAre(raw: string, escaped: bool)
    ensures Spelled(Items(raw, escaped)) == Unescaped(raw, escaped)
    ensures Any in Items(raw, escaped) <==> BareStar(raw, escaped)
  {
    if raw != "" {
      if escaped || raw[0] != '\\' {
        ItemsAre(raw[1..], false);
      } else {
        ItemsAre(raw[1..], true);
      }
    }
  }

  /** Items that read the same way on both sides. */
  predicate Clean(items: seq<Item>) {
    Lit('_') !in items && Lit('*') !in items && Lit('\\') !in items
  }

  /** Without a star, a glob matches its own text alone. */
  lemma {:induction false} GlobWithoutStar(items: seq<Item>, s: string)
    requires Any !in items
    ensures GlobMatches(items, s) <==> s == Spelled(items)
  {
    if items != [] && s != "" {
      GlobWithoutStar(items[1..], s[1..]);
      assert s == [s[0]] + s[1..];
    }
  }

  /** A longer or shorter match never lies: whatever the glob matches, LIKE matches too,
      unless a backslash survives unescaping. */
  lemma {:induction false} GlobRefinesLike(items: seq<Item>, s: string)
    requires Lit('\\') !in items && GlobMatches(items, s)
    ensures LikeMatches(Pattern(items), s)
    decreases |items| + |s|
  {
    if items != [] {
      PatternStep(items);
      var more := items[1..];
      if items[0] == Any {
        if GlobMatches(more, s) {
          GlobRefinesLike(more, s);
        } else {
          GlobRefinesLike(items, s[1..]);
        }
      } else {
        GlobRefinesLike(more, s[1..]);
        if items[0].c == '*' || items[0].c == '%' {
          assert LikeMatches(Pattern(items), s[1..]);
        }
      }
    }
  }

  lemma PatternStep(items: seq<Item>)
    requires items != []
    ensures var p := Pattern(items);
      && p != "" && p[1..] == Pattern(items[1..])
      && p[0] == if items[0] == Any || items[0].c == '*' then '%' else items[0].c
  {}

  lemma {:induction false} CleanLikeIsGlob(items: seq<Item>, s: string)
    requires Clean(items) && Lit('%') !in items && LikeMatches(Pattern(items), s)
    ensures GlobMatches(items, s)
    decreases |items| + |s|
  {
    if items != [] {
      PatternStep(items);
      var more := items[1..];
      if items[0] == Any {
        if LikeMatches(Pattern(more), s) {
          CleanLikeIsGlob(more, s);
        } else {
          CleanLikeIsGlob(items, s[1..]);
        }
      } else {
        CleanLikeIsGlob(more, s[1..]);
      }
    }
  }

  /** How agreement fails. The characters that cause trouble are counted: the shortest string
      a pattern matches holds too few of them for the glob. */

  const TROUBLE: set<char> := {'_', '*', '\\'}

  function Demand(items: seq<Item>): nat {
    if items == [] then 0
    else (if items[0] != Any && items[0].c in TROUBLE then 1 else 0) + Demand(items[1..])
  }

  lemma {:induction false} GlobNeeds(items: seq<Item>, s: string)
    requires GlobMatches(items, s)
    ensures Count(TROUBLE, s) >= Demand(items)
    decreases |items| + |s|
  {
    if items != [] {
      if items[0] == Any {
        if GlobMatches(items[1..], s) {
          GlobNeeds(items[1..], s);
        } else {
          GlobNeeds(items, s[1..]);
        }
      } else {
        GlobNeeds(items[1..], s[1..]);
      }
    }
  }

  /** The shortest string a pattern matches, with a letter for every underscore. */
  function Shortest(p: string): string {
    if p == "" then ""
    else if p[0] == '\\' then if |p| >= 2 then [p[1]] + Shortest(p[2..]) else ""
    else if p[0] == '%' then Shortest(p[1..])
    else [if p[0] == '_' then 'a' else p[0]] + Shortest(p[1..])
  }

  lemma {:induction false} ShortestMatches(p: string)
    requires PatternOk(p)
    ensures LikeMatches(p, Shortest(p))
  {
    if p != "" {
      if p[0] == '\\' {
        ShortestMatches(p[2..]);
      } else {
        ShortestMatches(p[1..]);
      }
    }
  }

  /** Every such character in the shortest match uses up two of the pattern's: itself and
      the backslash before it. */
  lemma {:induction false} ShortestHolds(p: string)
    requires '*' !in p
    ensures 2 * Count(TROUBLE, Shortest(p)) <= Count(TROUBLE, p)
  {
    if p != "" {
      if p[0] == '\\' && |p| >= 2 {
        assert p[1] in p && p[1..][0] == p[1] && p[1..][1..] == p[2..];
        ShortestHolds(p[2..]);
      } else {
        ShortestHolds(p[1..]);
      }
    }
  }

  lemma {:induction false} PatternHolds(items: seq<Item>)
    ensures Count(TROUBLE, Pattern(items)) <= Demand(items) && '*' !in Pattern(items)
  {
    if items != [] {
      PatternStep(items);
      PatternHolds(items[1..]);
    }
  }

  lemma {:induction false} DemandIsTrouble(items: seq<Item>)
    ensures Demand(items) == 0 <==> Clean(items)
  {
    if items != [] {
      DemandIsTrouble(items[1..]);
      assert items == [items[0]] + items[1..];
    }
  }

  lemma {:induction false} DanglingMatchesNothing(p: string, s: string)
    requires !PatternOk(p)
    ensures !LikeMatches(p, s)
    decreases |p| + |s|
  {
    if p[0] == '\\' {
      if |p| >= 2 && s != "" {
        DanglingMatchesNothing(p[2..], s[1..]);
      }
    } else {
      DanglingMatchesNothing(p[1..], s);
      if s != "" {
        DanglingMatchesNothing(p[1..], s[1..]);
        if p[0] == '%' {
          DanglingMatchesNothing(p, s[1..]);
        }
      }
    }
  }

  /** A glob always matches its text with the stars left out. */
  function Literals(items: seq<Item>): string {
    if items == [] then ""
    else (if items[0] == Any then "" else [items[0].c]) + Literals(items[1..])
  }

  lemma {:induction false} GlobMatchesLiterals(items: seq<Item>)
    ensures GlobMatches(items, Literals(items))
  {
    if items != [] {
      GlobMatchesLiterals(items[1..]);
      assert Literals(items) ==
        if items[0] == Any then Literals(items[1..]) else [items[0].c] + Literals(items[1..]);
    }
  }

  ghost predicate Agree(items: seq<Item>) {
    forall s :: LikeMatches(Pattern(items), s) <==> GlobMatches(items, s)
  }

  lemma TroubleDisagrees(items: seq<Item>)
    requires !Clean(items)
    ensures exists s :: LikeMatches(Pattern(items), s) != GlobMatches(items, s)
  {
    var p := Pattern(items);
    if PatternOk(p) {
      ShortestMatches(p);
      PatternHolds(items);
      ShortestHolds(p);
      DemandIsTrouble(items);
      if GlobMatches(items, Shortest(p)) {
        GlobNeeds(items, Shortest(p));
      }
    } else {
      DanglingMatchesNothing(p, Literals(items));
      GlobMatchesLiterals(items);
    }
  }

  /** The emitted pattern and the glob match the same strings exactly when no underscore,
      escaped star or escaped backslash is asked for. A percent sign cannot be typed: no
      lexer rule takes it. */
  lemma AgreeExactly(items: seq<Item>)
    requires Lit('%') !in items
    ensures Agree(items) <==> Clean(items)
  {
    if Clean(items) {
      forall s
        ensures LikeMatches(Pattern(items), s) <==> GlobMatches(items, s)
      {
        if LikeMatches(Pattern(items), s) {
          CleanLikeIsGlob(items, s);
        }
        if GlobMatches(items, s) {
          GlobRefinesLike(items, s);
        }
      }
    } else {
      TroubleDisagrees(items);
    }
  }

  /** How one leaf's column text is tested: by equality or LIKE as compiled, or as the glob
      its user wrote. */

  predicate LeafAccepts(raw: string, v: string) {
    var value := Unescaped(raw, false);
    if BareStar(raw, false) then LikeMatches(StarsToPercents(value), v) else v == value
  }

  predicate GlobAccepts(raw: string, v: string) {
    GlobMatches(Items(raw, false), v)
  }

  /** A leaf tests what its user wrote, for every column text, exactly when it has no bare
      star or its items are clean. */
  lemma LeafExactly(raw: string)
    requires IsValueText(raw, false)
    ensures (forall v :: LeafAccepts(raw, v) <==> GlobAccepts(raw, v)) <==>
      (BareStar(raw, false) ==> Clean(Items(raw, false)))
  {
    var items := Items(raw, false);
    ItemsAre(raw, false);
    NoPercent(raw, false, false);
    hide LikeMatches, GlobMatches, Items, IsValueText, Unescaped, BareStar;
    if BareStar(raw, false) {
      AgreeExactly(items);
      assert forall v :: LeafAccepts(raw, v) <==> LikeMatches(Pattern(items), v);
    } else {
      forall v
        ensures LeafAccepts(raw, v) <==> GlobAccepts(raw, v)
      {
        GlobWithoutStar(items, v);
      }
    }
  }

  lemma {:induction false} NoPercent(raw: string, inIdent: bool, escaped: bool)
    requires if escaped then raw != "" && raw[0] in QueryLexer.ESCAPABLE && IsValueText(raw[1..], false)
      else IsValueText(raw, inIdent)
    ensures Lit('%') !in Items(raw, escaped)
  {
    if raw != "" {
      if escaped {
        NoPercent(raw[1..], false, false);
      } else if raw[0] == '\\' {
        assert raw[1..][1..] == raw[2..];
        NoPercent(raw[1..], false, true);
      } else if In(raw[0], IdentStart) || raw[0] == '-' {
        NoPercent(raw[1..], true, false);
      } else if In(raw[0], Digit) || raw[0] == '.' {
        NoPercent(raw[1..], inIdent, false);
      } else {
        NoPercent(raw[1..], false, false);
      }
    }
  }
}

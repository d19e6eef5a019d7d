/** The part of PostgreSQL that search statements use: words and parentheses, conditions in
    which AND binds tighter than OR (documentation section 4.1.6), three-valued truth, LIKE
    (section 9.7.1), and a SELECT with LIMIT and OFFSET. */
module Sql {
  import opened Text

  /** Scanning: parentheses stand alone, blanks separate words. */

  datatype Token = Open | Close | Word(text: string)

  predicate Delimits(c: char) {
    In(c, Blank) || c == '(' || c == ')'
  }

  function WordLength(s: string): (n: nat)
    ensures n <= |s|
    ensures forall i :: 0 <= i < n ==> !Delimits(s[i])
    ensures n < |s| ==> Delimits(s[n])
  {
    if s == "" || Delimits(s[0]) then 0 else 1 + WordLength(s[1..])
  }

  function Scan(s: string): seq<Token> {
    if s == "" then []
    else if s[0] == '(' then [Open] + Scan(s[1..])
    else if s[0] == ')' then [Close] + Scan(s[1..])
    else if In(s[0], Blank) then Scan(s[1..])
    else
      var n := WordLength(s);
      [Word(s[..n])] + Scan(s[n..])
  }

  lemma {:induction false} WordLengthAppend(a: string, b: string)
    requires b == "" || Delimits(b[0]) || WordLength(a) < |a|
    ensures WordLength(a + b) == WordLength(a)
  {
    if a == "" {
      assert a + b == b;
    } else {
      assert (a + b)[1..] == a[1..] + b;
      if !Delimits(a[0]) {
        WordLengthAppend(a[1..], b);
      }
    }
  }

  /** The token that one character gives, when it does not begin a word. */
  function SignToks(c: char): seq<Token> {
    if c == '(' then [Open] else if c == ')' then [Close] else []
  }

  lemma ScanUnfold(s: string)
    requires s != ""
    ensures Delimits(s[0]) ==> Scan(s) == SignToks(s[0]) + Scan(s[1..])
    ensures !Delimits(s[0]) ==> Scan(s) == [Word(s[..WordLength(s)])] + Scan(s[WordLength(s)..])
  {}

  lemma WordSplits(a: string, b: string)
    requires a != "" && !Delimits(a[0])
    requires b == "" || Delimits(a[|a| - 1]) || Delimits(b[0])
    ensures var n := WordLength(a);
      && 0 < n <= |a| && WordLength(a + b) == n
      && (a + b)[..n] == a[..n] && (a + b)[n..] == a[n..] + b
  {
    WordIsNotEmpty(a);
    hide *;
    var n := WordLength(a);
    assert n == |a| ==> !Delimits(a[|a| - 1]);
    WordLengthAppend(a, b);
    TakeDrop(a, b, n);
  }

  lemma WordIsNotEmpty(a: string)
    requires a != "" && !Delimits(a[0])
    ensures WordLength(a) > 0
  {}

  lemma TakeDrop(a: string, b: string, n: nat)
    requires n <= |a|
    ensures (a + b)[..n] == a[..n] && (a + b)[n..] == a[n..] + b
  {}

  predicate Cuts(a: string, b: string) {
    a == "" || b == "" || Delimits(a[|a| - 1]) || Delimits(b[0])
  }

  lemma CutsLater(a: string, b: string, n: nat)
    requires Cuts(a, b) && n <= |a|
    ensures Cuts(a[n..], b)
  {
    hide Delimits;
  }

  /** Scanning goes piece by piece wherever a delimiter stands at the cut. */
  lemma {:induction false} ScanAppend(a: string, b: string)
    requires Cuts(a, b)
    ensures Scan(a + b) == Scan(a) + Scan(b)
  {
    hide Scan, Delimits, WordLength, SignToks;
    if a == "" {
      assert a + b == b;
      ScanNothing();
    } else {
      ScanUnfold(a);
      ScanUnfold(a + b);
      assert (a + b)[0] == a[0];
      if Delimits(a[0]) {
        assert (a + b)[1..] == a[1..] + b;
        CutsLater(a, b, 1);
        ScanAppend(a[1..], b);
      } else if b == "" {
        assert a + b == a;
        ScanNothing();
      } else {
        WordSplits(a, b);
        CutsLater(a, b, WordLength(a));
        ScanAppend(a[WordLength(a)..], b);
      }
    }
  }

  lemma ScanNothing()
    ensures Scan("") == []
  {}

  predicate IsWord(s: string) {
    s != "" && forall i :: 0 <= i < |s| ==> !Delimits(s[i])
  }

  lemma ScanWord(s: string)
    requires IsWord(s)
    ensures Scan(s) == [Word(s)]
  {
    assert WordLength(s) == |s|;
    assert s[..|s|] == s;
  }

  /** Conditions. */

  datatype Operand = Column(name: string) | Param(index: nat) | Literal(text: string)

  datatype Cond =
    | Or(left: Cond, right: Cond)
    | And(left: Cond, right: Cond)
    | Equal(lhs: Operand, rhs: Operand)
    | Like(subject: Operand, pattern: Operand)
    | EqualAny(lhs: Operand, arr: Operand)
    | ExistsLike(arr: Operand, pattern: Operand)

  const KEYWORDS: set<string> := {
    "OR", "AND", "EXISTS", "SELECT", "FROM", "WHERE", "AS", "LIKE", "ANY", "=",
    "ORDER", "BY", "LIMIT", "OFFSET"}

  predicate AllDigits(s: string) {
    forall i :: 0 <= i < |s| ==> IsDigit(s[i])
  }

  function ReadOperand(w: string): Option<Operand> {
    if w == "" || w in KEYWORDS then None
    else if w[0] == '$' then
      if |w| > 1 && AllDigits(w[1..]) then Some(Param(Atoi(w[1..]))) else None
    else if w[0] == '\'' then
      if |w| > 1 && w[|w| - 1] == '\'' then Some(Literal(w[1..|w| - 1])) else None
    else Some(Column(w))
  }

  predicate Sees(ts: seq<Token>, word: string) {
    ts != [] && ts[0] == Word(word)
  }

  function ParseOr(ts: seq<Token>): (r: Option<(Cond, seq<Token>)>)
    ensures r.Some? ==> |r.value.1| < |ts|
    decreases |ts|, 3
  {
    match ParseAnd(ts)
    case None => None
    case Some((left, rest)) => OrLoop(left, rest)
  }

  function OrLoop(left: Cond, ts: seq<Token>): (r: Option<(Cond, seq<Token>)>)
    ensures r.Some? ==> |r.value.1| <= |ts|
    decreases |ts|, 0
  {
    if !Sees(ts, "OR") then Some((left, ts))
    else
      match ParseAnd(ts[1..])
      case None => None
      case Some((right, rest)) => OrLoop(Or(left, right), rest)
  }

  function ParseAnd(ts: seq<Token>): (r: Option<(Cond, seq<Token>)>)
    ensures r.Some? ==> |r.value.1| < |ts|
    decreases |ts|, 2
  {
    match ParsePrimary(ts)
    case None => None
    case Some((left, rest)) => AndLoop(left, rest)
  }

  function AndLoop(left: Cond, ts: seq<Token>): (r: Option<(Cond, seq<Token>)>)
    ensures r.Some? ==> |r.value.1| <= |ts|
    decreases |ts|, 0
  {
    if !Sees(ts, "AND") then Some((left, ts))
    else
      match ParsePrimary(ts[1..])
      case None => None
      case Some((right, rest)) => AndLoop(And(left, right), rest)
  }

  function ParsePrimary(ts: seq<Token>): (r: Option<(Cond, seq<Token>)>)
    ensures r.Some? ==> |r.value.1| < |ts|
    decreases |ts|, 1
  {
    if ts != [] && ts[0] == Open then
      match ParseOr(ts[1..])
      case None => None
      case Some((c, rest)) =>
        if rest != [] && rest[0] == Close then Some((c, rest[1..])) else None
    else if Sees(ts, "EXISTS") then ParseExists(ts)
    else ParseComparison(ts)
  }

  /** EXISTS (SELECT 1 FROM unnest(column) AS elem WHERE elem LIKE pattern) */
  function ParseExists(ts: seq<Token>): (r: Option<(Cond, seq<Token>)>)
    ensures r.Some? ==> |r.value.1| < |ts|
  {
    if && |ts| >= 16
       && ts[..6] == [Word("EXISTS"), Open, Word("SELECT"), Word("1"), Word("FROM"), Word("unnest")]
       && ts[6] == Open && ts[7].Word? && ts[8] == Close
       && ts[9..14] == [Word("AS"), Word("elem"), Word("WHERE"), Word("elem"), Word("LIKE")]
       && ts[14].Word? && ts[15] == Close
    then
      match (ReadOperand(ts[7].text), ReadOperand(ts[14].text))
      case (Some(arr), Some(pattern)) => Some((ExistsLike(arr, pattern), ts[16..]))
      case _ => None
    else None
  }

  function ParseComparison(ts: seq<Token>): (r: Option<(Cond, seq<Token>)>)
    ensures r.Some? ==> |r.value.1| < |ts|
  {
    if |ts| < 3 || !ts[0].Word? || !ts[1].Word? || !ts[2].Word? then None
    else
      match ReadOperand(ts[0].text)
      case None => None
      case Some(lhs) =>
        if ts[1].text == "=" && ts[2].text == "ANY" then
          if |ts| >= 6 && ts[3] == Open && ts[4].Word? && ts[5] == Close then
            match ReadOperand(ts[4].text)
            case None => None
            case Some(arr) => Some((EqualAny(lhs, arr), ts[6..]))
          else None
        else
          match ReadOperand(ts[2].text)
          case None => None
          case Some(rhs) =>
            if ts[1].text == "=" then Some((Equal(lhs, rhs), ts[3..]))
            else if ts[1].text == "LIKE" then Some((Like(lhs, rhs), ts[3..]))
            else None
  }

  /** Values. A column holds text, an array of nullable texts, or NULL. */

  datatype Cell = Null | Txt(value: string) | Array(elems: seq<Option<string>>)

  type Row = map<string, Cell>

  datatype Arg = StrArg(text: string) | IntArg(number: int)

  /** SQL truth, with Fault for a condition the server refuses to evaluate. */
  datatype Truth = True | False | Unknown | Fault

  function Truth2(b: bool): Truth {
    if b then True else False
  }

  function OrTruth(a: Truth, b: Truth): Truth {
    if a == Fault || b == Fault then Fault
    else if a == True || b == True then True
    else if a == Unknown || b == Unknown then Unknown
    else False
  }

  function AndTruth(a: Truth, b: Truth): Truth {
    if a == Fault || b == Fault then Fault
    else if a == False || b == False then False
    else if a == Unknown || b == Unknown then Unknown
    else True
  }

  function Value(o: Operand, row: Row, args: seq<Arg>): Option<Cell> {
    match o
    case Column(name) => if name in row then Some(row[name]) else None
    case Param(i) =>
      if 1 <= i <= |args| && args[i - 1].StrArg? then Some(Txt(args[i - 1].text)) else None
    case Literal(text) => Some(Txt(text))
  }

  /** Whether s matches the LIKE pattern p: % any string, _ any character, and a backslash
      takes the next character for itself. */
  predicate LikeMatches(p: string, s: string)
    decreases |p| + |s|
  {
    if p == "" then s == ""
    else if p[0] == '\\' then
      |p| >= 2 && s != "" && s[0] == p[1] && LikeMatches(p[2..], s[1..])
    else if p[0] == '%' then
      LikeMatches(p[1..], s) || (s != "" && LikeMatches(p, s[1..]))
    else
      s != "" && (p[0] == '_' || s[0] == p[0]) && LikeMatches(p[1..], s[1..])
  }

  /** A pattern must not end in the escape character. */
  predicate PatternOk(p: string) {
    p != "" ==>
      if p[0] == '\\' then |p| >= 2 && PatternOk(p[2..]) else PatternOk(p[1..])
  }

  function EvalEqual(a: Option<Cell>, b: Option<Cell>): Truth {
    match (a, b)
    case (Some(Txt(x)), Some(Txt(y))) => Truth2(x == y)
    case (Some(Null), Some(Txt(_))) => Unknown
    case (Some(Txt(_)), Some(Null)) => Unknown
    case (Some(Null), Some(Null)) => Unknown
    case _ => Fault
  }

  function EvalLike(a: Option<Cell>, p: Option<Cell>): Truth {
    match (a, p)
    case (Some(Txt(x)), Some(Txt(y))) => if PatternOk(y) then Truth2(LikeMatches(y, x)) else Fault
    case (Some(Null), Some(Txt(y))) => if PatternOk(y) then Unknown else Fault
    case _ => Fault
  }

  function EvalEqualAny(a: Option<Cell>, arr: Option<Cell>): Truth {
    match (a, arr)
    case (Some(Txt(x)), Some(Array(es))) =>
      if Some(x) in es then True else if None in es then Unknown else False
    case (Some(Txt(_)), Some(Null)) => Unknown
    case _ => Fault
  }

  /** unnest of NULL gives no rows, and a NULL element makes the inner condition not true. */
  function EvalExistsLike(arr: Option<Cell>, p: Option<Cell>): Truth {
    match (arr, p)
    case (Some(Array(es)), Some(Txt(y))) =>
      if PatternOk(y) then Truth2(exists i :: 0 <= i < |es| && es[i].Some? && LikeMatches(y, es[i].value))
      else Fault
    case (Some(Null), Some(Txt(y))) => if PatternOk(y) then False else Fault
    case _ => Fault
  }

  function Eval(c: Cond, row: Row, args: seq<Arg>): Truth {
    match c
    case Or(l, r) => OrTruth(Eval(l, row, args), Eval(r, row, args))
    case And(l, r) => AndTruth(Eval(l, row, args), Eval(r, row, args))
    case Equal(l, r) => EvalEqual(Value(l, row, args), Value(r, row, args))
    case Like(l, p) => EvalLike(Value(l, row, args), Value(p, row, args))
    case EqualAny(l, a) => EvalEqualAny(Value(l, row, args), Value(a, row, args))
    case ExistsLike(a, p) => EvalExistsLike(Value(a, row, args), Value(p, row, args))
  }

  /** Statements, from WHERE on. */

  datatype Query = Query(where: Cond, limit: Option<Operand>, offset: Option<Operand>)

  function ReadQuery(text: string): Option<Query> {
    var ts := Scan(text);
    if !Sees(ts, "WHERE") then None
    else
      match ParseOr(ts[1..])
      case None => None
      case Some((c, rest)) =>
        if rest == [] then Some(Query(c, None, None))
        else if |rest| == 8
          && rest[..5] == [Word("ORDER"), Word("BY"), Word("pk.created_at"), Word("DESC"), Word("LIMIT")]
          && rest[5].Word? && rest[6] == Word("OFFSET") && rest[7].Word?
        then Some(Query(c, ReadOperand(rest[5].text), ReadOperand(rest[7].text)))
        else None
  }

  /** The rows a condition keeps: those it is True of, neither False nor Unknown. */
  function Keep(c: Cond, table: seq<Row>, args: seq<Arg>): seq<Row> {
    if table == [] then []
    else (if Eval(c, table[0], args) == True then [table[0]] else []) + Keep(c, table[1..], args)
  }

  function IntValue(o: Option<Operand>, args: seq<Arg>): Option<int> {
    match o
    case Some(Param(i)) =>
      if 1 <= i <= |args| && args[i - 1].IntArg? then Some(args[i - 1].number) else None
    case _ => None
  }

  function Page<T>(rows: seq<T>, limit: nat, offset: nat): seq<T> {
    var from := if offset <= |rows| then offset else |rows|;
    var to := if from + limit <= |rows| then from + limit else |rows|;
    rows[from..to]
  }
}

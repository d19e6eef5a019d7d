/** The whole search statement: the clause spliced in after the key type, the page
    placeholders after the clause's own, and the rows and count that come back. */
module Statement {
  import opened Text
  import opened Keys
  import opened QueryAst
  import opened Builder
  import opened Leaves
  import opened Compile
  import opened ReadBack
  import opened Meaning
  import Sql

  function TypeName(k: KeyType): string {
    if k == SSH then "ssh" else "gpg"
  }

  function FieldsFor(k: KeyType): Fields {
    if k == SSH then SSH_FIELDS else GPG_FIELDS
  }

  /** The statement's text from WHERE on. */
  function BaseWhere(k: KeyType): string {
    if k == SSH then " WHERE pk.key_type = 'ssh'" else " WHERE pk.key_type = 'gpg'"
  }

  function FullWhere(k: KeyType, clause: string): string {
    if clause == "" then BaseWhere(k) else BaseWhere(k) + " AND " + clause
  }

  function PageText(args: nat): string {
    " ORDER BY pk.created_at DESC LIMIT $" + Itoa(args + 1) + " OFFSET $" + Itoa(args + 2)
  }

  /** Running a statement over the joined rows, newest first; None when the server refuses. */
  function Run(text: string, args: seq<Sql.Arg>, table: seq<Sql.Row>): Option<seq<Sql.Row>> {
    match Sql.ReadQuery(text)
    case None => None
    case Some(q) =>
      if Faults(q.where, args, table) then None
      else
        var rows := Sql.Keep(q.where, table, args);
        if q.limit.None? && q.offset.None? then Some(rows)
        else
          match (Sql.IntValue(q.limit, args), Sql.IntValue(q.offset, args))
          case (Some(limit), Some(offset)) =>
            if limit < 0 || offset < 0 then None else Some(Sql.Page(rows, limit, offset))
          case _ => None
  }

  predicate Faults(c: Sql.Cond, args: seq<Sql.Arg>, table: seq<Sql.Row>) {
    exists i :: 0 <= i < |table| && Sql.Eval(c, table[i], args) == Sql.Fault
  }

  function TextArgs(args: seq<string>): (r: seq<Sql.Arg>)
    ensures |r| == |args|
  {
    seq(|args|, i requires 0 <= i < |args| => Sql.StrArg(args[i]))
  }

  method SearchWithQuery(
      k: KeyType, whereClause: string, args: seq<string>, limit: int, offset: int, table: seq<Sql.Row>)
    returns (total: Option<nat>, rows: Option<seq<Sql.Row>>)
    ensures var where := FullWhere(k, whereClause);
      && (total == match Run(where, TextArgs(args), table) case None => None case Some(rs) => Some(|rs|))
      && (total.Some? ==> rows == Run(where + PageText(|args|),
        TextArgs(args) + [Sql.IntArg(limit), Sql.IntArg(offset)], table))
  {
    var fullWhere := BaseWhere(k);
    if whereClause != "" {
      fullWhere := fullWhere + " AND " + whereClause;
    }
    var counted := Run(fullWhere, TextArgs(args), table);
    if counted.None? {
      return None, None;
    }
    var argIndex := |args| + 1;
    var text := fullWhere + (" ORDER BY pk.created_at DESC LIMIT $" + Itoa(argIndex)
      + " OFFSET $" + Itoa(argIndex + 1));
    rows := Run(text, TextArgs(args) + [Sql.IntArg(limit), Sql.IntArg(offset)], table);
    total := Some(|counted.value|);
  }

  /** The rows a query is for. */
  predicate Wanted(r: Reading, k: KeyType, q: Option<OrExpr>, row: Sql.Row) {
    && "pk.key_type" in row && row["pk.key_type"] == Sql.Txt(TypeName(k))
    && (q.Some? ==> MeansOr(r, FieldsFor(k), q.value, row))
  }

  function Filter(r: Reading, k: KeyType, q: Option<OrExpr>, table: seq<Sql.Row>): seq<Sql.Row> {
    if table == [] then []
    else (if Wanted(r, k, q, table[0]) then [table[0]] else []) + Filter(r, k, q, table[1..])
  }

  predicate GoodRow(k: KeyType, row: Sql.Row) {
    && Conforms(FieldsFor(k), row)
    && "pk.key_type" in row && row["pk.key_type"].Txt?
  }

  /** Reading the statement back. */

  function TypeCond(k: KeyType): Sql.Cond {
    Sql.Equal(Sql.Column("pk.key_type"), Sql.Literal(TypeName(k)))
  }

  function Quoted(k: KeyType): string {
    if k == SSH then "'ssh'" else "'gpg'"
  }

  function TypeToks(k: KeyType): seq<Sql.Token> {
    [Sql.Word("pk.key_type"), Sql.Word("="), Sql.Word(Quoted(k))]
  }

  lemma TypeWords()
    ensures Sql.IsWord("'ssh'") && Sql.IsWord("'gpg'")
  {}

  lemma TypeLiterals()
    ensures Sql.ReadOperand("'ssh'") == Some(Sql.Literal("ssh"))
    ensures Sql.ReadOperand("'gpg'") == Some(Sql.Literal("gpg"))
    ensures "'ssh'" != "ANY" && "'gpg'" != "ANY"
  {
    assert "'ssh'"[1..4] == "ssh" && "'gpg'"[1..4] == "gpg";
  }

  lemma TypeColumn()
    ensures Sql.IsWord("WHERE") && Sql.IsWord("pk.key_type")
    ensures Sql.ReadOperand("pk.key_type") == Some(Sql.Column("pk.key_type"))
  {}

  lemma BaseWords(k: KeyType)
    ensures Sql.IsWord("WHERE") && Sql.IsWord("pk.key_type") && Sql.IsWord(Quoted(k))
    ensures Sql.ReadOperand("pk.key_type") == Some(Sql.Column("pk.key_type"))
    ensures Sql.ReadOperand(Quoted(k)) == Some(Sql.Literal(TypeName(k)))
    ensures Quoted(k) != "ANY"
  {
    TypeWords();
    TypeLiterals();
    TypeColumn();
    hide Sql.IsWord, Sql.ReadOperand;
  }

  lemma SshLiteral()
    ensures " WHERE pk.key_type = 'ssh'" ==
      " " + ("WHERE" + (" " + ("pk.key_type" + (" " + ("=" + (" " + "'ssh'"))))))
  {}

  lemma GpgLiteral()
    ensures " WHERE pk.key_type = 'gpg'" ==
      " " + ("WHERE" + (" " + ("pk.key_type" + (" " + ("=" + (" " + "'gpg'"))))))
  {}

  lemma BaseText(k: KeyType)
    ensures BaseWhere(k) == " " + After(["WHERE", "pk.key_type"], "=" + (" " + Quoted(k)))
  {
    AfterTwo("WHERE", "pk.key_type", "=" + (" " + Quoted(k)));
    SshLiteral();
    GpgLiteral();
    hide After;
  }

  lemma ScanBase(k: KeyType)
    ensures Sql.Scan(BaseWhere(k)) == [Sql.Word("WHERE")] + TypeToks(k)
  {
    var lit := Quoted(k);
    BaseWords(k);
    BaseText(k);
    Words();
    AfterTwo("WHERE", "pk.key_type", "=" + (" " + lit));
    hide Sql.Scan, Sql.IsWord, After, WordToks, Quoted, BaseWhere;
    ScanSign(After(["WHERE", "pk.key_type"], "=" + (" " + lit)));
    ScanAfter(["WHERE", "pk.key_type"], "=" + (" " + lit));
    ScanWordThen("=", lit);
    Sql.ScanWord(lit);
  }

  function PageToks(n: nat): seq<Sql.Token> {
    [Sql.Word("ORDER"), Sql.Word("BY"), Sql.Word("pk.created_at"), Sql.Word("DESC"), Sql.Word("LIMIT"),
     Sql.Word(Placeholder(n + 1)), Sql.Word("OFFSET"), Sql.Word(Placeholder(n + 2))]
  }

  const ORDER_WORDS: seq<string> := ["ORDER", "BY", "pk.created_at", "DESC", "LIMIT"]

  lemma OrderBy(tail: string)
    ensures " ORDER BY " + tail == " " + ("ORDER" + (" " + ("BY" + (" " + tail))))
  {}

  lemma DescLimit()
    ensures "pk.created_at DESC LIMIT $" == "pk.created_at" + (" " + ("DESC" + (" " + ("LIMIT" + (" " + "$")))))
  {
    assert " DESC LIMIT $" == " " + ("DESC" + (" " + ("LIMIT" + (" " + "$"))));
  }

  lemma OrderLiteral()
    ensures " ORDER BY pk.created_at DESC LIMIT $" == " " + ("ORDER" + (" " + ("BY" + (" "
      + ("pk.created_at" + (" " + ("DESC" + (" " + ("LIMIT" + (" " + "$"))))))))))
  {
    DescLimit();
    OrderBy("pk.created_at DESC LIMIT $");
    assert " ORDER BY pk.created_at DESC LIMIT $" == " ORDER BY " + "pk.created_at DESC LIMIT $";
  }

  lemma PageLiterals(tail: string)
    ensures " ORDER BY pk.created_at DESC LIMIT $" + tail == " " + ("ORDER" + (" " + ("BY" + (" "
      + ("pk.created_at" + (" " + ("DESC" + (" " + ("LIMIT" + (" " + ("$" + tail)))))))))))
  {
    OrderLiteral();
  }

  lemma OffsetLiteral(tail: string)
    ensures " OFFSET $" + tail == " " + ("OFFSET" + (" " + ("$" + tail)))
  {}

  lemma OrderText(tail: string)
    ensures After(ORDER_WORDS, tail) == "ORDER" + (" " + ("BY" + (" "
      + ("pk.created_at" + (" " + ("DESC" + (" " + ("LIMIT" + (" " + tail)))))))))
  {
    var w3 := ["pk.created_at", "DESC", "LIMIT"];
    var w4 := ["BY"] + w3;
    assert ORDER_WORDS[1..] == w4 && w4[1..] == w3 && w3[1..] == ["DESC", "LIMIT"];
    AfterTwo("DESC", "LIMIT", tail);
    var s := After(["DESC", "LIMIT"], tail);
    assert After(w3, tail) == "pk.created_at" + (" " + s);
    assert After(w4, tail) == "BY" + (" " + After(w3, tail));
    assert After(ORDER_WORDS, tail) == "ORDER" + (" " + After(w4, tail));
  }

  lemma PageTextIs(n: nat)
    ensures PageText(n) ==
      " " + After(ORDER_WORDS, Placeholder(n + 1) + (" " + ("OFFSET" + (" " + Placeholder(n + 2)))))
  {
    var p, q := Placeholder(n + 1), Placeholder(n + 2);
    assert p == "$" + Itoa(n + 1) && q == "$" + Itoa(n + 2);
    var tail := " " + ("OFFSET" + (" " + q));
    assert PageText(n) == " ORDER BY pk.created_at DESC LIMIT $" + (Itoa(n + 1) + (" OFFSET $" + Itoa(n + 2)));
    hide *;
    OffsetLiteral(Itoa(n + 2));
    PageLiterals(Itoa(n + 1) + tail);
    OrderText(p + tail);
    assert "$" + (Itoa(n + 1) + tail) == p + tail;
  }

  lemma OrderWords()
    ensures forall i :: 0 <= i < |ORDER_WORDS| ==> Sql.IsWord(ORDER_WORDS[i])
    ensures Sql.IsWord("OFFSET")
  {}

  lemma ScanPage(n: nat)
    ensures Sql.Scan(PageText(n)) == PageToks(n)
  {
    hide *;
    PageTextIs(n);
    OrderWords();
    PlaceholderReads(n + 1);
    PlaceholderReads(n + 2);
    var p, q := Placeholder(n + 1), Placeholder(n + 2);
    var tail := p + (" " + ("OFFSET" + (" " + q)));
    ScanSign(After(ORDER_WORDS, tail));
    ScanAfter(ORDER_WORDS, tail);
    ScanWordThen(p, "OFFSET" + (" " + q));
    ScanWordThen("OFFSET", q);
    Sql.ScanWord(q);
    PageToksAre(n);
  }

  lemma PageToksAre(n: nat)
    ensures WordToks(ORDER_WORDS) + ([Sql.Word(Placeholder(n + 1))]
      + ([Sql.Word("OFFSET")] + [Sql.Word(Placeholder(n + 2))])) == PageToks(n)
  {
    hide Placeholder;
  }

  /** The key type's condition, alone or in front of a conjunct. */
  lemma ReadType(k: KeyType, rest: seq<Sql.Token>)
    ensures Sql.ParsePrimary(TypeToks(k) + rest) == Some((TypeCond(k), rest))
  {
    BaseWords(k);
    hide Sql.ReadOperand, Sql.ParsePrimary, TypeName, Quoted;
    ParseThree(Sql.Word("pk.key_type"), Sql.Word("="), Sql.Word(Quoted(k)), rest);
    assert [Sql.Word("pk.key_type"), Sql.Word("=")] + [Sql.Word(Quoted(k))] == TypeToks(k);
  }

  /** What follows a statement's condition: nothing, or the page. */
  predicate Ends(rest: seq<Sql.Token>) {
    !Sql.Sees(rest, "AND") && !Sql.Sees(rest, "OR")
  }

  lemma ReadBase(k: KeyType, rest: seq<Sql.Token>)
    requires Ends(rest)
    ensures Sql.ParseOr(TypeToks(k) + rest) == Some((TypeCond(k), rest))
  {
    ReadType(k, rest);
    AndLoopStops(TypeCond(k), rest);
    assert Sql.OrLoop(TypeCond(k), rest) == Some((TypeCond(k), rest));
    hide Sql.ParsePrimary, TypeToks, TypeCond;
  }

  /** The splice after AND keeps the clause one conjunct beside the key type. */
  lemma ReadSpliced(k: KeyType, clause: string, c: Sql.Cond, rest: seq<Sql.Token>)
    requires Reads(clause, c, rest) && Ends(rest)
    ensures Sql.ParseOr(TypeToks(k) + ([Sql.Word("AND")] + (Sql.Scan(clause) + rest))) ==
      Some((Sql.And(TypeCond(k), c), rest))
  {
    var more := [Sql.Word("AND")] + (Sql.Scan(clause) + rest);
    hide Sql.ParsePrimary, TypeToks, TypeCond, Sql.Scan;
    ReadType(k, more);
    AndLoopStep(TypeCond(k), Sql.Scan(clause) + rest, c, rest);
  }

  lemma ReadPage(c: Sql.Cond, body: seq<Sql.Token>, n: nat, text: string)
    requires Sql.Scan(text) == [Sql.Word("WHERE")] + (body + PageToks(n))
    requires Sql.ParseOr(body + PageToks(n)) == Some((c, PageToks(n)))
    ensures Sql.ReadQuery(text) == Some(Sql.Query(c, Some(Sql.Param(n + 1)), Some(Sql.Param(n + 2))))
  {
    PlaceholderReads(n + 1);
    PlaceholderReads(n + 2);
    hide Sql.Scan, Sql.ParseOr, Sql.ReadOperand, Placeholder;
    assert Sql.Scan(text)[1..] == body + PageToks(n);
    assert PageToks(n)[..5] ==
      [Sql.Word("ORDER"), Sql.Word("BY"), Sql.Word("pk.created_at"), Sql.Word("DESC"), Sql.Word("LIMIT")];
  }

  lemma ReadCount(c: Sql.Cond, body: seq<Sql.Token>, text: string)
    requires Sql.Scan(text) == [Sql.Word("WHERE")] + body
    requires Sql.ParseOr(body) == Some((c, []))
    ensures Sql.ReadQuery(text) == Some(Sql.Query(c, None, None))
  {
    hide Sql.Scan, Sql.ParseOr;
    assert Sql.Scan(text)[1..] == body;
  }

  lemma ScanSpliced(base: string, clause: string)
    ensures Sql.Scan(base + " AND " + clause) == Sql.Scan(base) + [Sql.Word("AND")] + Sql.Scan(clause)
  {
    Words();
    ScanSeparator("AND");
    assert " " + "AND" + " " == " AND ";
    hide Sql.Scan, Sql.IsWord;
    JoinScan(base, " AND ", clause);
  }

  lemma ScanCount(k: KeyType, clause: string)
    ensures Sql.Scan(FullWhere(k, clause)) == [Sql.Word("WHERE")] + Body(k, clause, [])
  {
    hide Sql.Scan, BaseWhere, TypeToks;
    ScanBase(k);
    ScanSpliced(BaseWhere(k), clause);
    assert Sql.Scan(clause) + [] == Sql.Scan(clause);
  }

  /** The tokens after WHERE. */
  function Body(k: KeyType, clause: string, rest: seq<Sql.Token>): seq<Sql.Token> {
    if clause == "" then TypeToks(k) + rest
    else TypeToks(k) + ([Sql.Word("AND")] + (Sql.Scan(clause) + rest))
  }

  lemma ScanSelect(k: KeyType, clause: string, n: nat)
    ensures Sql.Scan(FullWhere(k, clause) + PageText(n)) ==
      [Sql.Word("WHERE")] + (Body(k, clause, []) + PageToks(n))
    ensures Body(k, clause, []) + PageToks(n) == Body(k, clause, PageToks(n))
  {
    ScanCount(k, clause);
    ScanPage(n);
    PageStarts(n);
    hide Sql.Scan, FullWhere, PageText, PageToks, TypeToks;
    Sql.ScanAppend(FullWhere(k, clause), PageText(n));
  }

  lemma PageStarts(n: nat)
    ensures PageText(n) != "" && Sql.Delimits(PageText(n)[0])
    ensures Ends(PageToks(n)) && Ends([])
  {}

  /** The statement's condition, given what its clause reads as. */
  function Where(k: KeyType, clause: string, c: Sql.Cond): Sql.Cond {
    if clause == "" then TypeCond(k) else Sql.And(TypeCond(k), c)
  }

  lemma ReadStatement(k: KeyType, clause: string, c: Sql.Cond, n: nat)
    requires clause != "" ==> Reads(clause, c, []) && Reads(clause, c, PageToks(n))
    ensures Sql.ReadQuery(FullWhere(k, clause)) == Some(Sql.Query(Where(k, clause, c), None, None))
    ensures Sql.ReadQuery(FullWhere(k, clause) + PageText(n)) ==
      Some(Sql.Query(Where(k, clause, c), Some(Sql.Param(n + 1)), Some(Sql.Param(n + 2))))
  {
    ScanCount(k, clause);
    ScanSelect(k, clause, n);
    PageStarts(n);
    BodyReads(k, clause, c, []);
    BodyReads(k, clause, c, PageToks(n));
    hide *;
    ReadCount(Where(k, clause, c), Body(k, clause, []), FullWhere(k, clause));
    ReadPage(Where(k, clause, c), Body(k, clause, []), n, FullWhere(k, clause) + PageText(n));
  }

  lemma BodyReads(k: KeyType, clause: string, c: Sql.Cond, rest: seq<Sql.Token>)
    requires Ends(rest) && (clause != "" ==> Reads(clause, c, rest))
    ensures Sql.ParseOr(Body(k, clause, rest)) == Some((Where(k, clause, c), rest))
  {
    hide Sql.ParseOr, Sql.Scan, TypeToks, TypeCond, Reads, Ends;
    if clause == "" {
      ReadBase(k, rest);
    } else {
      ReadSpliced(k, clause, c, rest);
    }
  }

  /** Patterns the server takes: none may end in an unpaired backslash. */
  predicate PatternsOk(ls: seq<Field>) {
    forall i :: 0 <= i < |ls| ==> (BareStar(ls[i].raw, false) ==> Sql.PatternOk(LeafArg(ls[i])))
  }

  lemma BuiltIsReady(fields: Fields, e: OrExpr, more: seq<Sql.Arg>)
    requires EmitOr(fields, e, 1).built.Clause? && PatternsOk(LeavesOr(e))
    ensures Ready(fields, TextArgs(EmitOr(fields, e, 1).args) + more, 1, LeavesOr(e))
  {
    EmitOrReports(fields, e, 1);
    var ls := LeavesOr(e);
    assert ls[..|ls|] == ls;
    hide EmitOr, LeavesOr, BareStar, LeafArg, Sql.PatternOk;
  }

  lemma RowSelected(k: KeyType, q: Option<OrExpr>, row: Sql.Row, args: seq<Sql.Arg>)
    requires GoodRow(k, row)
    requires q.Some? ==> Ready(FieldsFor(k), args, 1, LeavesOr(q.value))
    ensures Selects(Sql.Eval(TypeCond(k), row, args),
      "pk.key_type" in row && row["pk.key_type"] == Sql.Txt(TypeName(k)))
    ensures q.Some? ==>
      Selects(Sql.Eval(Sql.And(TypeCond(k), CondOr(FieldsFor(k), q.value, 1)), row, args),
        Wanted(AsCompiled, k, q, row))
  {
    hide CondOr, MeansOr, Ready, FieldsFor;
    if q.Some? {
      EvalOr(FieldsFor(k), q.value, 1, row, args);
      EvalPair(TypeCond(k), "pk.key_type" in row && row["pk.key_type"] == Sql.Txt(TypeName(k)),
        CondOr(FieldsFor(k), q.value, 1), MeansOr(AsCompiled, FieldsFor(k), q.value, row), row, args);
    }
  }

  predicate SelectsWanted(k: KeyType, q: Option<OrExpr>, c: Sql.Cond, table: seq<Sql.Row>, args: seq<Sql.Arg>) {
    forall i :: 0 <= i < |table| ==>
      Selects(Sql.Eval(c, table[i], args), Wanted(AsCompiled, k, q, table[i]))
  }

  lemma {:induction false} KeepIsFilter(
      k: KeyType, q: Option<OrExpr>, c: Sql.Cond, table: seq<Sql.Row>, args: seq<Sql.Arg>)
    requires SelectsWanted(k, q, c, table, args)
    ensures Sql.Keep(c, table, args) == Filter(AsCompiled, k, q, table)
    ensures !Faults(c, args, table)
  {
    hide Sql.Eval, Wanted;
    if table != [] {
      var rest := table[1..];
      assert forall i :: 0 <= i < |rest| ==> rest[i] == table[i + 1];
      KeepIsFilter(k, q, c, rest, args);
    }
  }

  /** Build's clause and arguments for a query, or none at all. */
  function ClauseFor(k: KeyType, q: Option<OrExpr>): string
    requires q.Some? ==> EmitOr(FieldsFor(k), q.value, 1).built.Clause?
  {
    if q.None? then "" else EmitOr(FieldsFor(k), q.value, 1).built.text
  }

  function ArgsFor(k: KeyType, q: Option<OrExpr>): seq<string> {
    if q.None? then [] else EmitOr(FieldsFor(k), q.value, 1).args
  }

  /** For every query whose fields are mapped, over every table: the count statement counts,
      and the page statement pages, exactly the rows of the key type that the query means. */
  lemma {:induction false} SearchIsExact(k: KeyType, q: Option<OrExpr>, limit: int, offset: int, table: seq<Sql.Row>)
    requires q.Some? ==>
      EmitOr(FieldsFor(k), q.value, 1).built.Clause? && PatternsOk(LeavesOr(q.value))
    requires forall i :: 0 <= i < |table| ==> GoodRow(k, table[i])
    ensures var where, args := FullWhere(k, ClauseFor(k, q)), ArgsFor(k, q);
      && Run(where, TextArgs(args), table) == Some(Filter(AsCompiled, k, q, table))
      && Run(where + PageText(|args|), TextArgs(args) + [Sql.IntArg(limit), Sql.IntArg(offset)], table) ==
        if limit < 0 || offset < 0 then None
        else Some(Sql.Page(Filter(AsCompiled, k, q, table), limit, offset))
  {
    var clause, args := ClauseFor(k, q), ArgsFor(k, q);
    var n := |args|;
    var c := if q.None? then TypeCond(k) else CondOr(FieldsFor(k), q.value, 1);
    var where := Where(k, clause, c);
    var page := [Sql.IntArg(limit), Sql.IntArg(offset)];
    ClauseReads(k, q, PageToks(n));
    TableSelected(k, q, table, []);
    TableSelected(k, q, table, page);
    ReadStatement(k, clause, c, n);
    hide *;
    assert TextArgs(args) + [] == TextArgs(args);
    RunCount(FullWhere(k, clause), where, TextArgs(args), table);
    RunPage(FullWhere(k, clause) + PageText(n), where, TextArgs(args), n, limit, offset, table);
  }

  lemma RunCount(text: string, where: Sql.Cond, args: seq<Sql.Arg>, table: seq<Sql.Row>)
    requires Sql.ReadQuery(text) == Some(Sql.Query(where, None, None)) && !Faults(where, args, table)
    ensures Run(text, args, table) == Some(Sql.Keep(where, table, args))
  {}

  lemma RunPage(
      text: string, where: Sql.Cond, args: seq<Sql.Arg>, n: nat, limit: int, offset: int, table: seq<Sql.Row>)
    requires Sql.ReadQuery(text) ==
      Some(Sql.Query(where, Some(Sql.Param(n + 1)), Some(Sql.Param(n + 2))))
    requires n == |args|
    requires !Faults(where, args + [Sql.IntArg(limit), Sql.IntArg(offset)], table)
    ensures var all := args + [Sql.IntArg(limit), Sql.IntArg(offset)];
      Run(text, all, table) ==
        if limit < 0 || offset < 0 then None
        else Some(Sql.Page(Sql.Keep(where, table, all), limit, offset))
  {
    var all := args + [Sql.IntArg(limit), Sql.IntArg(offset)];
    assert all[n] == Sql.IntArg(limit) && all[n + 1] == Sql.IntArg(offset);
    hide Sql.ReadQuery, Sql.Keep, Faults;
  }

  lemma EmptyReadsNothing(c: Sql.Cond)
    ensures !Reads("", c, [])
  {}

  lemma ClauseReads(k: KeyType, q: Option<OrExpr>, rest: seq<Sql.Token>)
    requires q.Some? ==> EmitOr(FieldsFor(k), q.value, 1).built.Clause?
    ensures q.Some? ==>
      var clause, c := ClauseFor(k, q), CondOr(FieldsFor(k), q.value, 1);
      clause != "" && Reads(clause, c, []) && Reads(clause, c, rest)
  {
    if q.Some? {
      ShippedFieldsAreGood();
      hide EmitOr, CondOr, GoodFields;
      PrimaryOr(FieldsFor(k), q.value, 1, []);
      PrimaryOr(FieldsFor(k), q.value, 1, rest);
      EmptyReadsNothing(CondOr(FieldsFor(k), q.value, 1));
    }
  }

  lemma TableSelected(k: KeyType, q: Option<OrExpr>, table: seq<Sql.Row>, more: seq<Sql.Arg>)
    requires q.Some? ==>
      EmitOr(FieldsFor(k), q.value, 1).built.Clause? && PatternsOk(LeavesOr(q.value))
    requires forall i :: 0 <= i < |table| ==> GoodRow(k, table[i])
    ensures var c := if q.None? then TypeCond(k) else CondOr(FieldsFor(k), q.value, 1);
      var where, args := Where(k, ClauseFor(k, q), c), TextArgs(ArgsFor(k, q)) + more;
      Sql.Keep(where, table, args) == Filter(AsCompiled, k, q, table) && !Faults(where, args, table)
  {
    var c := if q.None? then TypeCond(k) else CondOr(FieldsFor(k), q.value, 1);
    var args := TextArgs(ArgsFor(k, q)) + more;
    var where := Where(k, ClauseFor(k, q), c);
    ClauseReads(k, q, []);
    if q.Some? {
      BuiltIsReady(FieldsFor(k), q.value, more);
    }
    hide EmitOr, CondOr, LeavesOr, GoodRow, Sql.Eval, TypeCond, Ready, FieldsFor, Reads;
    forall i | 0 <= i < |table|
      ensures Selects(Sql.Eval(where, table[i], args), Wanted(AsCompiled, k, q, table[i]))
    {
      RowSelected(k, q, table[i], args);
    }
    KeepIsFilter(k, q, where, table, args);
  }

  lemma {:induction false} FilterSame(k: KeyType, q: Option<OrExpr>, table: seq<Sql.Row>)
    requires q.Some? ==> AllFaithful(LeavesOr(q.value))
    ensures Filter(AsWritten, k, q, table) == Filter(AsCompiled, k, q, table)
  {
    hide AllFaithful, MeansOr, FieldsFor;
    if table != [] {
      if q.Some? {
        SameOr(FieldsFor(k), q.value, table[0]);
      }
      FilterSame(k, q, table[1..]);
    }
  }

  lemma FaithfulPatterns(ls: seq<Field>)
    requires AllFaithful(ls)
    ensures PatternsOk(ls)
  {
    hide Faithful, Sql.PatternOk, LeafArg, BareStar;
    forall i | 0 <= i < |ls| && BareStar(ls[i].raw, false)
      ensures Sql.PatternOk(LeafArg(ls[i]))
    {
      FaithfulPatternOk(ls[i]);
    }
  }

  /** Where no wildcard leaf asks for an underscore, an escaped star or an escaped backslash,
      the rows found are those the query describes as its user wrote it. */
  lemma {:induction false} SearchIsAsWritten(k: KeyType, q: Option<OrExpr>, limit: int, offset: int,
      table: seq<Sql.Row>)
    requires q.Some? ==> EmitOr(FieldsFor(k), q.value, 1).built.Clause? && AllFaithful(LeavesOr(q.value))
    requires forall i :: 0 <= i < |table| ==> GoodRow(k, table[i])
    ensures var where, args := FullWhere(k, ClauseFor(k, q)), ArgsFor(k, q);
      && Run(where, TextArgs(args), table) == Some(Filter(AsWritten, k, q, table))
      && Run(where + PageText(|args|), TextArgs(args) + [Sql.IntArg(limit), Sql.IntArg(offset)], table) ==
        if limit < 0 || offset < 0 then None
        else Some(Sql.Page(Filter(AsWritten, k, q, table), limit, offset))
  {
    hide *;
    if q.Some? {
      FaithfulPatterns(LeavesOr(q.value));
    }
    FilterSame(k, q, table);
    SearchIsExact(k, q, limit, offset, table);
  }
}

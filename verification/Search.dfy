/** The SSH key search handler, from its parameters to the rows it answers with. */
module Search {
  import opened Text
  import opened Keys
  import opened QueryLexer
  import opened QueryAst
  import opened QueryParser
  import opened Builder
  import opened Leaves
  import opened Meaning
  import opened Statement
  import opened BasicQuery
  import opened BasicShape
  import opened BasicSearch
  import opened Records
  import Sql

  datatype Params = Params(
    q: Option<string>, query: Option<string>, fields: Option<seq<string>>, limit: Option<int>, offset: Option<int>)

  datatype Response = BadRequest | ServerError | Answered(total: nat, rows: seq<Sql.Row>)

  const DEFAULT_FIELDS: seq<string> := ["source.username", "source.provider"]

  function OrElse(o: Option<int>, default: int): int {
    if o.None? then default else o.value
  }

  predicate Given(o: Option<string>) {
    o.Some? && o.value != ""
  }

  /** What is asked: the advanced query when one is given, else the basic one over the fields
      given or the two default ones, else everything. */

  function FieldsOf(p: Params): (r: seq<string>)
    ensures r != []
  {
    if p.fields.None? || p.fields.value == [] then ["source.username", "source.provider"] else p.fields.value
  }

  function Asked(p: Params): ParseResult {
    match (p.q, p.query)
    case (Some(q), _) =>
      if q != "" then Parse(q)
      else if p.query.Some? && p.query.value != "" then Parse(BasicText(p.query.value, FieldsOf(p)))
      else Empty
    case (None, Some(term)) => if term != "" then Parse(BasicText(term, FieldsOf(p))) else Empty
    case (None, None) => Empty
  }

  function QueryOf(r: ParseResult): Option<OrExpr> {
    match r
    case Parsed(e) => Some(e)
    case Empty => None
    case SyntaxError => None
  }

  /** The page asked for of the records found. */
  function Answer(p: Params, found: seq<Record>): Response {
    var limit := match p.limit case None => 10 case Some(n) => n;
    var offset := match p.offset case None => 0 case Some(n) => n;
    if limit < 0 || offset < 0 then ServerError
    else Answered(|found|, JoinedRows(Slice(found, limit, offset)))
  }

  predicate NamesKnown(k: KeyType, ls: seq<Field>) {
    forall i :: 0 <= i < |ls| ==> IsName(k, ls[i].name)
  }

  predicate Refused(k: KeyType, r: ParseResult) {
    match r
    case SyntaxError => true
    case Empty => false
    case Parsed(e) => !NamesKnown(k, LeavesOr(e))
  }

  lemma KnownExactly(k: KeyType, ls: seq<Field>)
    ensures AllKnown(FieldsFor(k), ls) <==> NamesKnown(k, ls)
  {
    forall i | 0 <= i < |ls|
      ensures ls[i].name in FieldsFor(k) <==> IsName(k, ls[i].name)
    {
      NamesExactly(k, ls[i].name);
    }
    hide FieldsFor, IsName;
  }

  lemma BuildsWhenKnown(k: KeyType, e: OrExpr)
    ensures EmitOr(FieldsFor(k), e, 1).built.Clause? <==> NamesKnown(k, LeavesOr(e))
  {
    KnownExactly(k, LeavesOr(e));
    EmitOrReports(FieldsFor(k), e, 1);
    hide EmitOr, LeavesOr, FieldsFor, ArgsOf, NamesKnown;
  }

  method CompileQuery(k: KeyType, parsed: ParseResult) returns (clause: Option<string>, args: seq<string>)
    ensures clause.None? <==> Refused(k, parsed)
    ensures clause.Some? ==>
      && (parsed.Parsed? ==> EmitOr(FieldsFor(k), parsed.query, 1).built.Clause?)
      && clause.value == ClauseFor(k, QueryOf(parsed)) && args == ArgsFor(k, QueryOf(parsed))
  {
    hide EmitOr, LeavesOr, FieldsFor, NamesKnown;
    match parsed
    case Empty => return Some(""), [];
    case SyntaxError => return None, [];
    case Parsed(query) =>
      var built;
      built, args := Build(FieldsFor(k), Some(query));
      BuildsWhenKnown(k, query);
      clause := if built.Clause? then Some(built.text) else None;
  }

  /** The handler, over everything stored. */
  method SearchSSHKeys(p: Params, records: seq<Record>) returns (r: Response)
    ensures Refused(SSH, Asked(p)) ==> r == BadRequest
    ensures !Refused(SSH, Asked(p)) && Answerable(Asked(p)) ==>
      r == Answer(p, Found(AsCompiled, SSH, QueryOf(Asked(p)), records))
    ensures !Refused(SSH, Asked(p)) && AskedFaithfully(Asked(p)) ==>
      r == Answer(p, Found(AsWritten, SSH, QueryOf(Asked(p)), records))
  {
    var limit, offset := OrElse(p.limit, 10), OrElse(p.offset, 0);
    var whereClause, args := Some(""), [];
    ghost var asked := Asked(p);
    FaithfulIsAnswerable(asked);
    hide Parse, Refused, EmitOr, PatternsOk, FieldsFor, LeavesOr, Run, Found, Answerable, Sql.Page, Answer, JoinedTable,
      FullWhere, PageText, TextArgs, ClauseFor, ArgsFor, AskedFaithfully;
    if Given(p.q) {
      whereClause, args := CompileQuery(SSH, Parse(p.q.value));
    } else if Given(p.query) {
      var fields := DEFAULT_FIELDS;
      if p.fields.Some? && |p.fields.value| > 0 {
        fields := p.fields.value;
      }
      var advanced := BuildBasicQuery(p.query.value, fields);
      whereClause, args := CompileQuery(SSH, Parse(advanced));
    } else {
      whereClause, args := CompileQuery(SSH, Empty);
    }
    if whereClause.None? {
      return BadRequest;
    }
    var table := JoinedTable(SSH, records);
    var total, rows := SearchWithQuery(SSH, whereClause.value, args, limit, offset, table);
    if Answerable(asked) {
      AnsweredIs(AsCompiled, SSH, asked, limit, offset, records, whereClause.value, args, total, rows, p);
    }
    if AskedFaithfully(asked) {
      AnsweredIs(AsWritten, SSH, asked, limit, offset, records, whereClause.value, args, total, rows, p);
    }
    r := if total.None? || rows.None? then ServerError else Answered(total.value, rows.value);
  }

  /** The server can evaluate the query on every row. */
  predicate Answerable(r: ParseResult) {
    r.Parsed? ==> PatternsOk(LeavesOr(r.query))
  }

  /** No leaf is compiled to something else than its user wrote. */
  predicate AskedFaithfully(r: ParseResult) {
    r.Parsed? ==> AllFaithful(LeavesOr(r.query))
  }

  lemma FaithfulIsAnswerable(r: ParseResult)
    ensures AskedFaithfully(r) ==> Answerable(r)
  {
    hide AllFaithful, PatternsOk, LeavesOr;
    if r.Parsed? && AskedFaithfully(r) {
      FaithfulPatterns(LeavesOr(r.query));
    }
  }

  lemma AnsweredIs(reading: Reading, k: KeyType, asked: ParseResult, limit: int, offset: int, records: seq<Record>,
      clause: string, args: seq<string>, total: Option<nat>, rows: Option<seq<Sql.Row>>, p: Params)
    requires asked.Parsed? ==> EmitOr(FieldsFor(k), asked.query, 1).built.Clause?
    requires Answerable(asked) && (reading == AsWritten ==> AskedFaithfully(asked))
    requires limit == OrElse(p.limit, 10) && offset == OrElse(p.offset, 0)
    requires clause == ClauseFor(k, QueryOf(asked)) && args == ArgsFor(k, QueryOf(asked))
    requires var where, table := FullWhere(k, clause), JoinedTable(k, records);
      && (total == match Run(where, TextArgs(args), table) case None => None case Some(rs) => Some(|rs|))
      && (total.Some? ==> rows == Run(where + PageText(|args|),
        TextArgs(args) + [Sql.IntArg(limit), Sql.IntArg(offset)], table))
    ensures (if total.None? || rows.None? then ServerError else Answered(total.value, rows.value)) ==
      Answer(p, Found(reading, k, QueryOf(asked), records))
  {
    hide Run, EmitOr, PatternsOk, LeavesOr, Found, FieldsFor, FullWhere, PageText, TextArgs, ClauseFor, ArgsFor,
      AllFaithful, JoinedTable, JoinedRows, Slice;
    RecordsExactly(reading, k, QueryOf(asked), limit, offset, records);
  }

  /** A basic search, end to end: refused when the parser does not take the term or a field
      is not mapped; else its rows are those of the key type where some listed field accepts
      the term, which for a simple term is to contain it. */

  /** Some text of the part contains the term. */
  predicate PartContains(p: Part, term: string) {
    match p
    case Absent => false
    case Single(v) => Contains(v, term)
    case Several(vs) => exists i :: 0 <= i < |vs| && Contains(vs[i], term)
  }

  predicate HasTerm(k: KeyType, fields: seq<string>, term: string, r: Record)
    requires HasMeta(k, r)
  {
    exists i :: 0 <= i < |fields| && PartContains(PartOf(k, fields[i], r), term)
  }

  function Containing(k: KeyType, fields: seq<string>, term: string, rs: seq<Record>): seq<Record> {
    if rs == [] then []
    else
      (if rs[0].key.keyType == k && HasMeta(k, rs[0]) && HasTerm(k, fields, term, rs[0]) then [rs[0]] else [])
      + Containing(k, fields, term, rs[1..])
  }

  lemma PartHas(k: KeyType, name: string, term: string, r: Record)
    requires HasMeta(k, r)
    ensures FieldContains(k, name, term, JoinedRow(r)) <==> PartContains(PartOf(k, name, r), term)
  {
    NamesExactly(k, name);
    NoPart(k, name, r);
    hide IsName, JoinedRow, PartOf, FieldsFor, Contains, HasMeta;
    if IsName(k, name) {
      ColumnHolds(k, name, r);
      var p := PartOf(k, name, r);
      if p.Several? {
        var es := TextsCell(p.values).elems;
        assert forall i :: 0 <= i < |es| ==> es[i] == Some(p.values[i]);
      }
    }
  }

  lemma AsksTerm(k: KeyType, fields: seq<string>, term: string, r: Record)
    requires Accepted(term) && Simple(term) && fields != [] && HasMeta(k, r)
    ensures AsksOr(AsCompiled, k, BasicTree(term, fields), r) <==> HasTerm(k, fields, term, r)
  {
    hide Accepted, Simple, BasicTree, MeansOr, FieldContains, FieldsFor, AsksOr, JoinedRow, PartOf, PartContains,
      HasMeta;
    BasicFinds(k, term, fields, JoinedRow(r));
    OrAsks(AsCompiled, k, BasicTree(term, fields), r);
    forall i | 0 <= i < |fields|
      ensures FieldContains(k, fields[i], term, JoinedRow(r)) <==> PartContains(PartOf(k, fields[i], r), term)
    {
      PartHas(k, fields[i], term, r);
    }
  }

  lemma {:induction false} FoundIsContaining(k: KeyType, fields: seq<string>, term: string, rs: seq<Record>)
    requires Accepted(term) && Simple(term) && fields != []
    ensures Found(AsCompiled, k, Some(BasicTree(term, fields)), rs) == Containing(k, fields, term, rs)
  {
    hide Accepted, Simple, BasicTree, AsksOr, HasTerm, HasMeta;
    if rs != [] {
      if HasMeta(k, rs[0]) {
        AsksTerm(k, fields, term, rs[0]);
      }
      FoundIsContaining(k, fields, term, rs[1..]);
    }
  }

  lemma TreeIsKnown(k: KeyType, term: string, fields: seq<string>)
    requires fields != []
    ensures NamesKnown(k, LeavesOr(BasicTree(term, fields))) <==>
      forall i :: 0 <= i < |fields| ==> IsName(k, fields[i])
  {
    BasicLeaves(term, fields);
    hide LeavesOr, BasicTree, IsName, BasicRaw;
    var ls := LeavesList(fields, BasicRaw(term));
    assert forall i :: 0 <= i < |fields| ==> ls[i].name == fields[i];
  }

  /** For every term and every list of fields there are: a basic search finds the records with
      the term in one of those parts, and refuses a term only when it does not lex. */
  lemma BasicSearchAnswer(p: Params, records: seq<Record>)
    requires (p.q.None? || p.q.value == "") && p.query.Some? && p.query.value != "" && Simple(p.query.value)
    requires forall i :: 0 <= i < |FieldsOf(p)| ==> IsName(SSH, FieldsOf(p)[i])
    ensures Refused(SSH, Asked(p)) <==> Lex(Braced(p.query.value)).None?
    ensures !Refused(SSH, Asked(p)) ==>
      && Asked(p).Parsed? && Answerable(Asked(p))
      && Found(AsCompiled, SSH, QueryOf(Asked(p)), records) == Containing(SSH, FieldsOf(p), p.query.value, records)
  {
    var term, fields := p.query.value, FieldsOf(p);
    SimpleIsTame(term);
    NamesAreIdents(fields);
    hide Parse, Lex, BasicTree, PatternsOk, LeavesOr, Simple, Accepted, BasicText, AllIdents, IsName,
      Containing, Braced, Found, NamesKnown;
    ShapeIsFixed(term, fields);
    TameAccepted(term);
    TreeIsKnown(SSH, term, fields);
    BasicPatternsOk(term, fields);
    if Accepted(term) {
      FoundIsContaining(SSH, fields, term, records);
    }
  }

  lemma SimpleIsTame(term: string)
    requires Simple(term)
    ensures '\\' !in term
  {}

  lemma NamesAreIdents(fields: seq<string>)
    requires forall i :: 0 <= i < |fields| ==> IsName(SSH, fields[i])
    ensures AllIdents(fields)
  {
    hide IsName, IsIdent;
    forall i | 0 <= i < |fields|
      ensures IsIdent(fields[i])
    {
      NameIsIdent(SSH, fields[i]);
    }
  }

  /** Every name can be asked for: it lexes as one identifier. */
  lemma NameIsIdent(k: KeyType, name: string)
    requires IsName(k, name)
    ensures IsIdent(name)
  {
    PlainNames();
    DottedNames();
    hide IsIdent;
  }

  lemma PlainNames()
    ensures IsIdent("id") && IsIdent("fingerprint") && IsIdent("algorithm") && IsIdent("comment")
    ensures IsIdent("key_bits") && IsIdent("user_ids") && IsIdent("capabilities")
  {}

  lemma DottedNames()
    ensures IsIdent("source.username") && IsIdent("source.provider")
    ensures IsIdent("source.user_id") && IsIdent("source.uri")
  {}

  /** A search that names no field looks in the user name and the provider. */
  lemma DefaultSearchAnswer(p: Params, records: seq<Record>)
    requires (p.q.None? || p.q.value == "") && p.query.Some? && p.query.value != "" && Simple(p.query.value)
    requires p.fields.None? || p.fields.value == []
    ensures Refused(SSH, Asked(p)) <==> Lex(Braced(p.query.value)).None?
    ensures !Refused(SSH, Asked(p)) ==>
      && Answerable(Asked(p))
      && Found(AsCompiled, SSH, QueryOf(Asked(p)), records) ==
        WithNameOrProvider(p.query.value, records)
  {
    hide Simple, Refused, Asked, Answerable, Found, Lex, Braced;
    BasicSearchAnswer(p, records);
    hide IsName;
    DefaultIs(p.query.value, records);
  }

  function WithNameOrProvider(term: string, rs: seq<Record>): seq<Record> {
    if rs == [] then []
    else
      var source := rs[0].source;
      (if && rs[0].key.keyType == SSH && HasMeta(SSH, rs[0])
          && (Contains(source.username, term) || Contains(source.provider, term)) then [rs[0]] else [])
      + WithNameOrProvider(term, rs[1..])
  }

  lemma {:induction false} DefaultIs(term: string, rs: seq<Record>)
    ensures Containing(SSH, ["source.username", "source.provider"], term, rs) == WithNameOrProvider(term, rs)
  {
    hide HasTerm, HasMeta, Contains;
    if rs != [] {
      if HasMeta(SSH, rs[0]) {
        DefaultTerm(term, rs[0]);
      }
      DefaultIs(term, rs[1..]);
    }
  }

  lemma DefaultTerm(term: string, r: Record)
    requires HasMeta(SSH, r)
    ensures HasTerm(SSH, ["source.username", "source.provider"], term, r) <==>
      Contains(r.source.username, term) || Contains(r.source.provider, term)
  {
    SshParts(r);
    hide PartOf, HasMeta, Contains, IsName;
    var fields := ["source.username", "source.provider"];
    assert fields[0] == "source.username" && fields[1] == "source.provider";
  }
}

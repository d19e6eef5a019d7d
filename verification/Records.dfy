/** Search on what is stored: a key, its source and its metadata, in place of joined rows and
    columns. */
module Records {
  import opened Text
  import opened Keys
  import opened QueryAst
  import opened Builder
  import opened Leaves
  import opened Meaning
  import opened Statement
  import KeyStore
  import Sources
  import Sql

  datatype Record = Record(id: nat, key: KeyStore.Row, source: Sources.Source)

  /** The join asks for metadata of the type searched for. */
  predicate HasMeta(k: KeyType, r: Record) {
    r.key.meta.Some? && (if k == SSH then r.key.meta.value.SshMeta? else r.key.meta.value.GpgMeta?)
  }

  function IntText(n: int): string {
    if n < 0 then "-" + Itoa(-n) else Itoa(n)
  }

  function IntCell(n: Option<int>): Sql.Cell {
    if n.None? then Sql.Null else Sql.Txt(IntText(n.value))
  }

  function TextsCell(vs: seq<string>): Sql.Cell {
    Sql.Array(seq(|vs|, i requires 0 <= i < |vs| => Some(vs[i])))
  }

  /** public_keys pk JOIN sources s JOIN the metadata table, one row. */
  function JoinedRow(r: Record): Sql.Row {
    var row: Sql.Row := map[
      "pk.id" := Sql.Txt(Itoa(r.id)),
      "pk.key_type" := Sql.Txt(match r.key.keyType case SSH => "ssh" case GPG => "gpg"),
      "pk.fingerprint" := Sql.Txt(r.key.fingerprint),
      "s.provider" := Sql.Txt(r.source.provider),
      "s.user_id" := Sql.Txt(r.source.userId),
      "s.username" := Sql.Txt(r.source.username),
      "s.uri" := Sql.Txt(r.source.uri)];
    match r.key.meta
    case None => row
    case Some(SshMeta(algorithm, comment, keyBits)) =>
      row["sm.algorithm" := Sql.Txt(algorithm)]["sm.comment" := Sql.Txt(comment)]["sm.key_bits" := IntCell(keyBits)]
    case Some(GpgMeta(algorithm, keyBits, _, userIds, capabilities)) =>
      row["gm.algorithm" := Sql.Txt(algorithm)]["gm.key_bits" := IntCell(keyBits)]
        ["gm.user_ids" := TextsCell(userIds)]["gm.capabilities" := TextsCell(capabilities)]
  }

  function JoinedRows(rs: seq<Record>): (rows: seq<Sql.Row>)
    ensures |rows| == |rs|
  {
    seq(|rs|, i requires 0 <= i < |rs| => JoinedRow(rs[i]))
  }

  function WithMeta(k: KeyType, rs: seq<Record>): seq<Record> {
    if rs == [] then []
    else (if HasMeta(k, rs[0]) then [rs[0]] else []) + WithMeta(k, rs[1..])
  }

  /** The table a search for keys of the type runs over. */
  function JoinedTable(k: KeyType, rs: seq<Record>): seq<Sql.Row> {
    JoinedRows(WithMeta(k, rs))
  }

  /** What a field name stands for: no part of a record, one text, or any of several. */
  datatype Part = Absent | Single(value: string) | Several(values: seq<string>)

  function Number(n: Option<int>): Part {
    if n.None? then Absent else Single(IntText(n.value))
  }

  predicate IsName(k: KeyType, name: string) {
    || name in ["id", "fingerprint", "algorithm", "key_bits"]
    || name in ["source.username", "source.provider", "source.user_id", "source.uri"]
    || (k == SSH && name == "comment")
    || (k == GPG && (name == "user_ids" || name == "capabilities"))
  }

  function PartOf(k: KeyType, name: string, r: Record): Part
    requires HasMeta(k, r)
  {
    var meta := r.key.meta.value;
    if name == "id" then Single(Itoa(r.id))
    else if name == "fingerprint" then Single(r.key.fingerprint)
    else if name == "algorithm" then Single(meta.algorithm)
    else if name == "key_bits" then Number(meta.keyBits)
    else if name == "source.username" then Single(r.source.username)
    else if name == "source.provider" then Single(r.source.provider)
    else if name == "source.user_id" then Single(r.source.userId)
    else if name == "source.uri" then Single(r.source.uri)
    else if name == "comment" && k == SSH then Single(meta.comment)
    else if name == "user_ids" && k == GPG then Several(meta.userIds)
    else if name == "capabilities" && k == GPG then Several(meta.capabilities)
    else Absent
  }

  /** Some text of the part is accepted. */
  predicate PartAccepts(r: Reading, raw: string, p: Part) {
    match p
    case Absent => false
    case Single(v) => Accepts(r, raw, v)
    case Several(vs) => exists i :: 0 <= i < |vs| && Accepts(r, raw, vs[i])
  }

  lemma NamesExactly(k: KeyType, name: string)
    ensures name in FieldsFor(k) <==> IsName(k, name)
  {}

  /** The cell a name's column holds. */
  function CellOf(p: Part): Sql.Cell {
    match p
    case Absent => Sql.Null
    case Single(v) => Sql.Txt(v)
    case Several(vs) => TextsCell(vs)
  }

  lemma ColumnHolds(k: KeyType, name: string, r: Record)
    requires HasMeta(k, r) && IsName(k, name)
    ensures name in FieldsFor(k)
    ensures var m := FieldsFor(k)[name];
      && m.column in JoinedRow(r) && JoinedRow(r)[m.column] == CellOf(PartOf(k, name, r))
      && (PartOf(k, name, r).Several? ==> m.isArray) && (PartOf(k, name, r).Single? ==> !m.isArray)
  {
    if k == SSH {
      SshColumnHolds(name, r);
    } else {
      GpgColumnHolds(name, r);
    }
  }

  lemma SshColumnHolds(name: string, r: Record)
    requires HasMeta(SSH, r) && IsName(SSH, name)
    ensures name in FieldsFor(SSH)
    ensures var m := FieldsFor(SSH)[name];
      && m.column in JoinedRow(r) && JoinedRow(r)[m.column] == CellOf(PartOf(SSH, name, r))
      && (PartOf(SSH, name, r).Several? ==> m.isArray) && (PartOf(SSH, name, r).Single? ==> !m.isArray)
  {
    hide IntText, TextsCell;
  }

  lemma GpgColumnHolds(name: string, r: Record)
    requires HasMeta(GPG, r) && IsName(GPG, name)
    ensures name in FieldsFor(GPG)
    ensures var m := FieldsFor(GPG)[name];
      && m.column in JoinedRow(r) && JoinedRow(r)[m.column] == CellOf(PartOf(GPG, name, r))
      && (PartOf(GPG, name, r).Several? ==> m.isArray) && (PartOf(GPG, name, r).Single? ==> !m.isArray)
  {
    hide IntText, TextsCell;
  }

  /** A leaf holds of a joined row exactly when the part of the record it names is accepted. */
  lemma PartMeans(reading: Reading, k: KeyType, f: Field, r: Record)
    requires HasMeta(k, r)
    ensures MeansField(reading, FieldsFor(k), f, JoinedRow(r)) <==>
      IsName(k, f.name) && PartAccepts(reading, f.raw, PartOf(k, f.name, r))
  {
    NamesExactly(k, f.name);
    hide IsName, JoinedRow, PartOf, FieldsFor, Accepts, HasMeta;
    if IsName(k, f.name) {
      ColumnHolds(k, f.name, r);
      var p := PartOf(k, f.name, r);
      if p.Several? {
        var es := TextsCell(p.values).elems;
        assert forall i :: 0 <= i < |es| ==> es[i] == Some(p.values[i]);
      }
    }
  }

  lemma NameMeans(reading: Reading, k: KeyType, name: string, raw: string, r: Record, p: Part)
    requires HasMeta(k, r) && IsName(k, name) && PartOf(k, name, r) == p
    ensures MeansField(reading, FieldsFor(k), Field(name, raw), JoinedRow(r)) <==> PartAccepts(reading, raw, p)
  {
    hide *;
    PartMeans(reading, k, Field(name, raw), r);
  }

  lemma PartsMean(reading: Reading, raw: string)
    ensures forall v :: PartAccepts(reading, raw, Single(v)) <==> Accepts(reading, raw, v)
    ensures forall n :: PartAccepts(reading, raw, Number(n)) <==> n.Some? && Accepts(reading, raw, IntText(n.value))
    ensures forall vs :: PartAccepts(reading, raw, Several(vs)) <==>
      exists i :: 0 <= i < |vs| && Accepts(reading, raw, vs[i])
  {
    hide Accepts, IntText;
  }

  /** The parts every key has. */
  lemma CommonParts(k: KeyType, r: Record)
    requires HasMeta(k, r)
    ensures IsName(k, "id") && PartOf(k, "id", r) == Single(Itoa(r.id))
    ensures IsName(k, "fingerprint") && PartOf(k, "fingerprint", r) == Single(r.key.fingerprint)
    ensures IsName(k, "source.username") && PartOf(k, "source.username", r) == Single(r.source.username)
    ensures IsName(k, "source.provider") && PartOf(k, "source.provider", r) == Single(r.source.provider)
    ensures IsName(k, "source.user_id") && PartOf(k, "source.user_id", r) == Single(r.source.userId)
    ensures IsName(k, "source.uri") && PartOf(k, "source.uri", r) == Single(r.source.uri)
  {}

  lemma SshMetaParts(r: Record)
    requires HasMeta(SSH, r)
    ensures var meta := r.key.meta.value;
      && IsName(SSH, "algorithm") && PartOf(SSH, "algorithm", r) == Single(meta.algorithm)
      && IsName(SSH, "comment") && PartOf(SSH, "comment", r) == Single(meta.comment)
      && IsName(SSH, "key_bits") && PartOf(SSH, "key_bits", r) == Number(meta.keyBits)
  {
    hide IntText;
  }

  lemma SshParts(r: Record)
    requires HasMeta(SSH, r)
    ensures var meta := r.key.meta.value;
      && IsName(SSH, "id") && PartOf(SSH, "id", r) == Single(Itoa(r.id))
      && IsName(SSH, "fingerprint") && PartOf(SSH, "fingerprint", r) == Single(r.key.fingerprint)
      && IsName(SSH, "algorithm") && PartOf(SSH, "algorithm", r) == Single(meta.algorithm)
      && IsName(SSH, "comment") && PartOf(SSH, "comment", r) == Single(meta.comment)
      && IsName(SSH, "key_bits") && PartOf(SSH, "key_bits", r) == Number(meta.keyBits)
      && IsName(SSH, "source.username") && PartOf(SSH, "source.username", r) == Single(r.source.username)
      && IsName(SSH, "source.provider") && PartOf(SSH, "source.provider", r) == Single(r.source.provider)
      && IsName(SSH, "source.user_id") && PartOf(SSH, "source.user_id", r) == Single(r.source.userId)
      && IsName(SSH, "source.uri") && PartOf(SSH, "source.uri", r) == Single(r.source.uri)
  {
    CommonParts(SSH, r);
    SshMetaParts(r);
    hide PartOf, IsName, IntText;
  }

  /** The part each SSH name stands for. */
  lemma SshNames(reading: Reading, raw: string, r: Record)
    requires HasMeta(SSH, r)
    ensures var row, fs, meta := JoinedRow(r), FieldsFor(SSH), r.key.meta.value;
      && (MeansField(reading, fs, Field("id", raw), row) <==> Accepts(reading, raw, Itoa(r.id)))
      && (MeansField(reading, fs, Field("fingerprint", raw), row) <==> Accepts(reading, raw, r.key.fingerprint))
      && (MeansField(reading, fs, Field("algorithm", raw), row) <==> Accepts(reading, raw, meta.algorithm))
      && (MeansField(reading, fs, Field("comment", raw), row) <==> Accepts(reading, raw, meta.comment))
      && (MeansField(reading, fs, Field("key_bits", raw), row) <==>
          meta.keyBits.Some? && Accepts(reading, raw, IntText(meta.keyBits.value)))
      && (MeansField(reading, fs, Field("source.username", raw), row) <==> Accepts(reading, raw, r.source.username))
      && (MeansField(reading, fs, Field("source.provider", raw), row) <==> Accepts(reading, raw, r.source.provider))
      && (MeansField(reading, fs, Field("source.user_id", raw), row) <==> Accepts(reading, raw, r.source.userId))
      && (MeansField(reading, fs, Field("source.uri", raw), row) <==> Accepts(reading, raw, r.source.uri))
  {
    SshParts(r);
    hide *;
    var meta := r.key.meta.value;
    NameMeans(reading, SSH, "id", raw, r, Single(Itoa(r.id)));
    NameMeans(reading, SSH, "fingerprint", raw, r, Single(r.key.fingerprint));
    NameMeans(reading, SSH, "algorithm", raw, r, Single(meta.algorithm));
    NameMeans(reading, SSH, "comment", raw, r, Single(meta.comment));
    NameMeans(reading, SSH, "key_bits", raw, r, Number(meta.keyBits));
    NameMeans(reading, SSH, "source.username", raw, r, Single(r.source.username));
    NameMeans(reading, SSH, "source.provider", raw, r, Single(r.source.provider));
    NameMeans(reading, SSH, "source.user_id", raw, r, Single(r.source.userId));
    NameMeans(reading, SSH, "source.uri", raw, r, Single(r.source.uri));
    PartsMean(reading, raw);
  }

  lemma GpgMetaParts(r: Record)
    requires HasMeta(GPG, r)
    ensures var meta := r.key.meta.value;
      && IsName(GPG, "algorithm") && PartOf(GPG, "algorithm", r) == Single(meta.algorithm)
      && IsName(GPG, "key_bits") && PartOf(GPG, "key_bits", r) == Number(meta.keyBits)
      && IsName(GPG, "user_ids") && PartOf(GPG, "user_ids", r) == Several(meta.userIds)
      && IsName(GPG, "capabilities") && PartOf(GPG, "capabilities", r) == Several(meta.capabilities)
  {
    hide IntText;
  }

  lemma GpgParts(r: Record)
    requires HasMeta(GPG, r)
    ensures var meta := r.key.meta.value;
      && IsName(GPG, "id") && PartOf(GPG, "id", r) == Single(Itoa(r.id))
      && IsName(GPG, "fingerprint") && PartOf(GPG, "fingerprint", r) == Single(r.key.fingerprint)
      && IsName(GPG, "algorithm") && PartOf(GPG, "algorithm", r) == Single(meta.algorithm)
      && IsName(GPG, "key_bits") && PartOf(GPG, "key_bits", r) == Number(meta.keyBits)
      && IsName(GPG, "user_ids") && PartOf(GPG, "user_ids", r) == Several(meta.userIds)
      && IsName(GPG, "capabilities") && PartOf(GPG, "capabilities", r) == Several(meta.capabilities)
      && IsName(GPG, "source.username") && PartOf(GPG, "source.username", r) == Single(r.source.username)
      && IsName(GPG, "source.provider") && PartOf(GPG, "source.provider", r) == Single(r.source.provider)
      && IsName(GPG, "source.user_id") && PartOf(GPG, "source.user_id", r) == Single(r.source.userId)
      && IsName(GPG, "source.uri") && PartOf(GPG, "source.uri", r) == Single(r.source.uri)
  {
    CommonParts(GPG, r);
    GpgMetaParts(r);
    hide PartOf, IsName, IntText;
  }

  /** The parts each GPG name stands for. */
  lemma GpgNames(reading: Reading, raw: string, r: Record)
    requires HasMeta(GPG, r)
    ensures var row, fs, meta := JoinedRow(r), FieldsFor(GPG), r.key.meta.value;
      && (MeansField(reading, fs, Field("id", raw), row) <==> Accepts(reading, raw, Itoa(r.id)))
      && (MeansField(reading, fs, Field("fingerprint", raw), row) <==> Accepts(reading, raw, r.key.fingerprint))
      && (MeansField(reading, fs, Field("algorithm", raw), row) <==> Accepts(reading, raw, meta.algorithm))
      && (MeansField(reading, fs, Field("key_bits", raw), row) <==>
          meta.keyBits.Some? && Accepts(reading, raw, IntText(meta.keyBits.value)))
      && (MeansField(reading, fs, Field("user_ids", raw), row) <==>
          exists i :: 0 <= i < |meta.userIds| && Accepts(reading, raw, meta.userIds[i]))
      && (MeansField(reading, fs, Field("capabilities", raw), row) <==>
          exists i :: 0 <= i < |meta.capabilities| && Accepts(reading, raw, meta.capabilities[i]))
      && (MeansField(reading, fs, Field("source.username", raw), row) <==> Accepts(reading, raw, r.source.username))
      && (MeansField(reading, fs, Field("source.provider", raw), row) <==> Accepts(reading, raw, r.source.provider))
      && (MeansField(reading, fs, Field("source.user_id", raw), row) <==> Accepts(reading, raw, r.source.userId))
      && (MeansField(reading, fs, Field("source.uri", raw), row) <==> Accepts(reading, raw, r.source.uri))
  {
    GpgParts(r);
    hide *;
    var meta := r.key.meta.value;
    NameMeans(reading, GPG, "id", raw, r, Single(Itoa(r.id)));
    NameMeans(reading, GPG, "fingerprint", raw, r, Single(r.key.fingerprint));
    NameMeans(reading, GPG, "algorithm", raw, r, Single(meta.algorithm));
    NameMeans(reading, GPG, "key_bits", raw, r, Number(meta.keyBits));
    NameMeans(reading, GPG, "user_ids", raw, r, Several(meta.userIds));
    NameMeans(reading, GPG, "capabilities", raw, r, Several(meta.capabilities));
    NameMeans(reading, GPG, "source.username", raw, r, Single(r.source.username));
    NameMeans(reading, GPG, "source.provider", raw, r, Single(r.source.provider));
    NameMeans(reading, GPG, "source.user_id", raw, r, Single(r.source.userId));
    NameMeans(reading, GPG, "source.uri", raw, r, Single(r.source.uri));
    PartsMean(reading, raw);
  }

  /** What a query asks of a record. */

  predicate AsksOr(reading: Reading, k: KeyType, e: OrExpr, r: Record)
    requires HasMeta(k, r)
    decreases e, 1
  {
    AsksAnd(reading, k, e.left, r) || exists i :: 0 <= i < |e.right| && AsksAnd(reading, k, e.right[i], r)
  }

  predicate AsksAnd(reading: Reading, k: KeyType, a: AndExpr, r: Record)
    requires HasMeta(k, r)
    decreases a, 1
  {
    AsksUnary(reading, k, a.left, r) && forall i :: 0 <= i < |a.right| ==> AsksUnary(reading, k, a.right[i], r)
  }

  predicate AsksUnary(reading: Reading, k: KeyType, u: Unary, r: Record)
    requires HasMeta(k, r)
    decreases u, 1
  {
    match u
    case SubExpr(e) => AsksOr(reading, k, e, r)
    case Leaf(f) => PartAccepts(reading, f.raw, PartOf(k, f.name, r))
  }

  lemma {:induction false} OrAsks(reading: Reading, k: KeyType, e: OrExpr, r: Record)
    requires HasMeta(k, r)
    ensures MeansOr(reading, FieldsFor(k), e, JoinedRow(r)) <==> AsksOr(reading, k, e, r)
    decreases e, 1
  {
    hide FieldsFor, JoinedRow, HasMeta, MeansAnd, AsksAnd;
    AndAsks(reading, k, e.left, r);
    forall i | 0 <= i < |e.right|
      ensures MeansAnd(reading, FieldsFor(k), e.right[i], JoinedRow(r)) <==> AsksAnd(reading, k, e.right[i], r)
    {
      AndAsks(reading, k, e.right[i], r);
    }
  }

  lemma {:induction false} AndAsks(reading: Reading, k: KeyType, a: AndExpr, r: Record)
    requires HasMeta(k, r)
    ensures MeansAnd(reading, FieldsFor(k), a, JoinedRow(r)) <==> AsksAnd(reading, k, a, r)
    decreases a, 1
  {
    hide FieldsFor, JoinedRow, HasMeta, MeansUnary, AsksUnary;
    UnaryAsks(reading, k, a.left, r);
    forall i | 0 <= i < |a.right|
      ensures MeansUnary(reading, FieldsFor(k), a.right[i], JoinedRow(r)) <==> AsksUnary(reading, k, a.right[i], r)
    {
      UnaryAsks(reading, k, a.right[i], r);
    }
  }

  lemma {:induction false} UnaryAsks(reading: Reading, k: KeyType, u: Unary, r: Record)
    requires HasMeta(k, r)
    ensures MeansUnary(reading, FieldsFor(k), u, JoinedRow(r)) <==> AsksUnary(reading, k, u, r)
    decreases u, 1
  {
    match u
    case SubExpr(e) =>
      hide FieldsFor, JoinedRow, HasMeta, MeansOr, AsksOr;
      OrAsks(reading, k, e, r);
    case Leaf(f) =>
      PartMeans(reading, k, f, r);
      NoPart(k, f.name, r);
      hide FieldsFor, JoinedRow, HasMeta, MeansField, PartOf, IsName, Accepts;
  }

  lemma NoPart(k: KeyType, name: string, r: Record)
    requires HasMeta(k, r)
    ensures !IsName(k, name) ==> PartOf(k, name, r) == Absent
  {}

  /** The records a search is for. */
  predicate Sought(reading: Reading, k: KeyType, q: Option<OrExpr>, r: Record) {
    r.key.keyType == k && HasMeta(k, r) && (q.Some? ==> AsksOr(reading, k, q.value, r))
  }

  function Found(reading: Reading, k: KeyType, q: Option<OrExpr>, rs: seq<Record>): seq<Record> {
    if rs == [] then []
    else (if Sought(reading, k, q, rs[0]) then [rs[0]] else []) + Found(reading, k, q, rs[1..])
  }

  lemma SoughtIsWanted(reading: Reading, k: KeyType, q: Option<OrExpr>, r: Record)
    requires HasMeta(k, r)
    ensures Wanted(reading, k, q, JoinedRow(r)) <==> Sought(reading, k, q, r)
  {
    TypeColumn(r);
    if q.Some? {
      OrAsks(reading, k, q.value, r);
    }
    hide JoinedRow, HasMeta, MeansOr, AsksOr, FieldsFor;
  }

  lemma TypeColumn(r: Record)
    ensures "pk.key_type" in JoinedRow(r)
    ensures forall k :: JoinedRow(r)["pk.key_type"] == Sql.Txt(TypeName(k)) <==> r.key.keyType == k
    ensures JoinedRow(r)["pk.key_type"].Txt?
  {
    hide IntCell, TextsCell, Itoa;
    assert "ssh" != "gpg";
  }

  lemma JoinedIsGood(k: KeyType, r: Record)
    requires HasMeta(k, r)
    ensures GoodRow(k, JoinedRow(r))
  {
    TypeColumn(r);
    forall name | name in FieldsFor(k)
      ensures var fs := FieldsFor(k);
        && fs[name].column in JoinedRow(r)
        && match JoinedRow(r)[fs[name].column]
           case Null => true
           case Txt(_) => !fs[name].isArray
           case Array(_) => fs[name].isArray
    {
      NamesExactly(k, name);
      ColumnHolds(k, name, r);
      hide FieldsFor, JoinedRow, HasMeta, PartOf, IsName;
    }
    hide FieldsFor, JoinedRow, HasMeta;
  }

  lemma {:induction false} FilterIsFound(reading: Reading, k: KeyType, q: Option<OrExpr>, rs: seq<Record>)
    ensures Filter(reading, k, q, JoinedTable(k, rs)) == JoinedRows(Found(reading, k, q, rs))
  {
    if rs != [] {
      FilterIsFound(reading, k, q, rs[1..]);
      hide HasMeta, JoinedRow, Wanted, Sought;
      var rest := WithMeta(k, rs[1..]);
      if HasMeta(k, rs[0]) {
        SoughtIsWanted(reading, k, q, rs[0]);
        JoinedCons(rs[0], rest);
        JoinedCons(rs[0], Found(reading, k, q, rs[1..]));
        assert JoinedTable(k, rs)[1..] == JoinedTable(k, rs[1..]);
      } else {
        SoughtHasMeta(reading, k, q, rs[0]);
        assert WithMeta(k, rs) == rest && Found(reading, k, q, rs) == Found(reading, k, q, rs[1..]);
      }
    }
  }

  lemma SoughtHasMeta(reading: Reading, k: KeyType, q: Option<OrExpr>, r: Record)
    ensures Sought(reading, k, q, r) ==> HasMeta(k, r)
  {}

  lemma JoinedCons(r: Record, rs: seq<Record>)
    ensures JoinedRows([r] + rs) == [JoinedRow(r)] + JoinedRows(rs)
  {
    hide JoinedRow;
  }

  lemma {:induction false} AllHaveMeta(k: KeyType, rs: seq<Record>)
    ensures forall i :: 0 <= i < |WithMeta(k, rs)| ==> HasMeta(k, WithMeta(k, rs)[i])
  {
    hide HasMeta;
    if rs != [] {
      AllHaveMeta(k, rs[1..]);
    }
  }

  lemma TableIsGood(k: KeyType, rs: seq<Record>)
    ensures var table := JoinedTable(k, rs); forall i :: 0 <= i < |table| ==> GoodRow(k, table[i])
  {
    AllHaveMeta(k, rs);
    hide HasMeta, JoinedRow, GoodRow;
    var with := WithMeta(k, rs);
    forall i | 0 <= i < |with|
      ensures GoodRow(k, JoinedRow(with[i]))
    {
      JoinedIsGood(k, with[i]);
    }
  }

  /** LIMIT and OFFSET. */
  function Slice<T>(xs: seq<T>, limit: nat, offset: nat): seq<T> {
    var rest := if offset < |xs| then xs[offset..] else [];
    if limit < |rest| then rest[..limit] else rest
  }

  lemma PageIsSlice(rs: seq<Record>, limit: nat, offset: nat)
    ensures Sql.Page(JoinedRows(rs), limit, offset) == JoinedRows(Slice(rs, limit, offset))
  {
    hide JoinedRow;
  }

  /** For every compiled query and every stored records: the count is of, and the page is from,
      exactly the records of the key type whose parts the query accepts. */
  lemma RecordsExactly(reading: Reading, k: KeyType, q: Option<OrExpr>, limit: int, offset: int, rs: seq<Record>)
    requires q.Some? ==> EmitOr(FieldsFor(k), q.value, 1).built.Clause? && PatternsOk(LeavesOr(q.value))
    requires q.Some? && reading == AsWritten ==> AllFaithful(LeavesOr(q.value))
    ensures var where, args, table := FullWhere(k, ClauseFor(k, q)), ArgsFor(k, q), JoinedTable(k, rs);
      var found := Found(reading, k, q, rs);
      && Run(where, TextArgs(args), table) == Some(JoinedRows(found))
      && Run(where + PageText(|args|), TextArgs(args) + [Sql.IntArg(limit), Sql.IntArg(offset)], table) ==
        if limit < 0 || offset < 0 then None else Some(JoinedRows(Slice(found, limit, offset)))
  {
    hide *;
    TableIsGood(k, rs);
    if reading == AsWritten {
      SearchIsAsWritten(k, q, limit, offset, JoinedTable(k, rs));
    } else {
      SearchIsExact(k, q, limit, offset, JoinedTable(k, rs));
    }
    FilterIsFound(reading, k, q, rs);
    if limit >= 0 && offset >= 0 {
      PageIsSlice(Found(reading, k, q, rs), limit, offset);
    }
  }
}

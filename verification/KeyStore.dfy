/** The stored public keys, one row per key per source, behind calls that can each fail. */
module KeyStore {
  import opened Text
  import opened Keys

  datatype Meta =
    | SshMeta(algorithm: string, comment: string, keyBits: Option<int>)
    | GpgMeta(algorithm: string, keyBits: Option<int>, expiresAt: Option<int>,
        userIds: seq<string>, capabilities: seq<string>)

  datatype Row = Row(
    source: nat, keyType: KeyType, fingerprint: string, data: string, providerKeyId: Option<string>,
    meta: Option<Meta>)

  type Rows = map<nat, Row>

  /** idx_public_keys_source_fingerprint: both key types share it. */
  predicate OnePerSource(rows: Rows) {
    forall i, j :: i in rows && j in rows && i != j && rows[i].source == rows[j].source ==>
      rows[i].fingerprint != rows[j].fingerprint
  }

  predicate Of(row: Row, source: nat, k: KeyType) {
    row.source == source && row.keyType == k
  }

  predicate Holds(rows: Rows, source: nat, k: KeyType, fp: string) {
    exists id :: id in rows && Of(rows[id], source, k) && rows[id].fingerprint == fp
  }

  predicate Claimed(rows: Rows, source: nat, fp: string) {
    exists id :: id in rows && rows[id].source == source && rows[id].fingerprint == fp
  }

  /** Another row of the row's source has the fingerprint. */
  predicate Taken(rows: Rows, id: nat, fp: string)
    requires id in rows
  {
    exists j :: j in rows && j != id && rows[j].source == rows[id].source && rows[j].fingerprint == fp
  }

  lemma OwnIsFree(rows: Rows, id: nat)
    requires OnePerSource(rows) && id in rows
    ensures !Taken(rows, id, rows[id].fingerprint)
  {}

  /** How many keys were added, updated and removed. */
  datatype Counts = Counts(added: nat, updated: nat, removed: nat)

  const NOTHING: Counts := Counts(0, 0, 0)

  function Plus(a: Counts, b: Counts): Counts {
    Counts(a.added + b.added, a.updated + b.updated, a.removed + b.removed)
  }

  /** UPDATE keeps the recorded provider id when none is given, and replaces the metadata. */
  function Updated(row: Row, entity: Row): Row {
    entity.(source := row.source, keyType := row.keyType,
      providerKeyId := if entity.providerKeyId.Some? then entity.providerKeyId else row.providerKeyId)
  }

  predicate IsUpdated(row: Row, entity: Row, row': Row) {
    && row'.source == row.source && row'.keyType == row.keyType && row'.fingerprint == entity.fingerprint
    && row'.data == entity.data && row'.meta == entity.meta
    && row'.providerKeyId == (if entity.providerKeyId.None? then row.providerKeyId else entity.providerKeyId)
  }

  method ListRows(rows: Rows, source: nat, k: KeyType, limit: nat) returns (ids: seq<nat>)
    ensures Listed(rows, source, k, limit, ids)
  {
    hide Of;
    ids := [];
    var left := rows.Keys;
    EmptyListing(rows, source, k);
    while left != {} && |ids| < limit
      invariant |ids| <= limit && ListedBut(rows, source, k, left, ids)
      decreases |left|
    {
      var id :| id in left;
      ListOne(rows, source, k, left, ids, id);
      left := left - {id};
      if Of(rows[id], source, k) {
        ids := ids + [id];
      }
    }
  }

  class KeyStore {
    var rows: Rows
    var calls: nat
    var next: nat
    /** Which calls fail. */
    const down: nat -> bool
    /** Which listings break off unnoticed, and after how many rows. */
    const cut: nat -> Option<nat>
    /** The inserts, updates and deletes that have gone through. */
    ghost var done: Counts

    constructor (down: nat -> bool, cut: nat -> Option<nat>)
      ensures Valid() && rows == map[] && calls == 0 && this.down == down && this.cut == cut && done == NOTHING
    {
      rows, calls, next, this.down, this.cut, done := map[], 0, 0, down, cut, NOTHING;
    }

    ghost predicate Valid()
      reads this
    {
      OnePerSource(rows) && forall id :: id in rows ==> id < next
    }

    predicate Fine(c: nat) {
      !down(c) && cut(c).None?
    }

    ghost predicate UpSince(n: nat)
      reads this
    {
      forall c :: n <= c < calls ==> Fine(c)
    }

    lemma UpAt(n: nat, c: nat)
      requires n <= c < calls
      ensures UpSince(n) ==> !down(c) && cut(c).None?
    {
      assert UpSince(n) ==> Fine(c);
    }

    /** Rows of one source and type, at most so many of them, or only the first of those. */
    method Search(source: nat, k: KeyType, limit: nat) returns (found: Option<seq<nat>>)
      requires Valid()
      modifies this
      ensures Valid() && rows == old(rows) && calls == old(calls) + 1 && next == old(next) && done == old(done)
      ensures found.None? <==> down(old(calls))
      ensures found.Some? ==>
        exists all :: Listed(rows, source, k, limit, all) && found.value == FirstOf(all, cut(old(calls)))
    {
      calls := calls + 1;
      if down(calls - 1) {
        return None;
      }
      var ids := ListRows(rows, source, k, limit);
      found := Some(FirstOf(ids, cut(calls - 1)));
    }

    method Create(row: Row) returns (id: Option<nat>)
      requires Valid()
      modifies this
      ensures Valid() && calls == old(calls) + 1 && next >= old(next)
      ensures id.Some? <==> !down(old(calls)) && !Claimed(old(rows), row.source, row.fingerprint)
      ensures rows == if id.Some? then old(rows)[id.value := row] else old(rows)
      ensures id.Some? ==> id.value !in old(rows) && id.value >= old(next)
      ensures done == if id.Some? then Plus(old(done), Counts(1, 0, 0)) else old(done)
    {
      calls := calls + 1;
      if down(calls - 1) || Claimed(rows, row.source, row.fingerprint) {
        return None;
      }
      id := Some(next);
      rows, next := rows[next := row], next + 1;
      done := Plus(done, Counts(1, 0, 0));
    }

    /** Refused when another row of the source has the entity's fingerprint. */
    method Update(id: nat, entity: Row) returns (ok: bool)
      requires Valid()
      modifies this
      ensures Valid() && calls == old(calls) + 1 && next == old(next)
      ensures ok <==> !down(old(calls)) && id in old(rows) && !Taken(old(rows), id, entity.fingerprint)
      ensures rows == if ok then old(rows)[id := Updated(old(rows)[id], entity)] else old(rows)
      ensures ok ==> id in rows && IsUpdated(old(rows)[id], entity, rows[id])
      ensures done == if ok then Plus(old(done), Counts(0, 1, 0)) else old(done)
    {
      calls := calls + 1;
      if down(calls - 1) || id !in rows || Taken(rows, id, entity.fingerprint) {
        return false;
      }
      rows := rows[id := Updated(rows[id], entity)];
      done := Plus(done, Counts(0, 1, 0));
      ok := true;
    }

    method Delete(id: nat) returns (ok: bool)
      requires Valid()
      modifies this
      ensures Valid() && calls == old(calls) + 1 && next == old(next)
      ensures ok <==> !down(old(calls)) && id in old(rows)
      ensures rows == if ok then old(rows) - {id} else old(rows)
      ensures done == if ok then Plus(old(done), Counts(0, 0, 1)) else old(done)
    {
      calls := calls + 1;
      if down(calls - 1) || id !in rows {
        return false;
      }
      rows := rows - {id};
      done := Plus(done, Counts(0, 0, 1));
      ok := true;
    }
  }

  /** A listing up to where it breaks off, if it does. */
  function FirstOf(ids: seq<nat>, n: Option<nat>): seq<nat> {
    if n.Some? && n.value < |ids| then ids[..n.value] else ids
  }

  /** Distinct matching rows. */
  predicate Genuine(rows: Rows, source: nat, k: KeyType, ids: seq<nat>) {
    && (forall i :: 0 <= i < |ids| ==> ids[i] in rows && Of(rows[ids[i]], source, k))
    && (forall i, j :: 0 <= i < j < |ids| ==> ids[i] != ids[j])
  }

  lemma FirstIsGenuine(rows: Rows, source: nat, k: KeyType, limit: nat, ids: seq<nat>, n: Option<nat>)
    requires Listed(rows, source, k, limit, ids)
    ensures Genuine(rows, source, k, FirstOf(ids, n)) && (n.None? ==> FirstOf(ids, n) == ids)
  {
    hide Of;
  }

  /** What a search lists: distinct matching rows, all of them unless the limit is reached. */
  ghost predicate Listed(rows: Rows, source: nat, k: KeyType, limit: nat, ids: seq<nat>) {
    && |ids| <= limit && Genuine(rows, source, k, ids)
    && (|ids| < limit ==> forall id :: id in rows && Of(rows[id], source, k) ==> id in ids)
  }

  /** The same while some rows are still left to look at. */
  ghost predicate ListedBut(rows: Rows, source: nat, k: KeyType, left: set<nat>, ids: seq<nat>) {
    && left <= rows.Keys
    && (forall i :: 0 <= i < |ids| ==> ids[i] in rows && ids[i] !in left && Of(rows[ids[i]], source, k))
    && (forall i, j :: 0 <= i < j < |ids| ==> ids[i] != ids[j])
    && (forall id :: id in rows && Of(rows[id], source, k) && id !in left ==> id in ids)
  }

  lemma EmptyListing(rows: Rows, source: nat, k: KeyType)
    ensures ListedBut(rows, source, k, rows.Keys, [])
  {}

  lemma ListOne(rows: Rows, source: nat, k: KeyType, left: set<nat>, ids: seq<nat>, id: nat)
    requires ListedBut(rows, source, k, left, ids) && id in left
    ensures id in rows
    ensures ListedBut(rows, source, k, left - {id}, if Of(rows[id], source, k) then ids + [id] else ids)
  {
    hide Of;
  }

  function Matching(rows: Rows, source: nat, k: KeyType): set<nat> {
    set id | id in rows && Of(rows[id], source, k)
  }

  function Elems(ids: seq<nat>): set<nat> {
    set id | id in ids
  }

  /** Few enough rows are all listed. */
  lemma AllListed(rows: Rows, source: nat, k: KeyType, limit: nat, ids: seq<nat>)
    requires Listed(rows, source, k, limit, ids) && |Matching(rows, source, k)| <= limit
    ensures forall id :: id in rows && Of(rows[id], source, k) ==> id in ids
  {
    var all, listed := Matching(rows, source, k), Elems(ids);
    Distinct(ids);
    assert listed <= all;
    forall id | id in rows && Of(rows[id], source, k)
      ensures id in ids
    {
      assert id in all;
      if id !in ids {
        SubsetSmaller(listed, all - {id});
      }
    }
  }

  lemma {:induction false} Distinct(ids: seq<nat>)
    requires forall i, j :: 0 <= i < j < |ids| ==> ids[i] != ids[j]
    ensures |Elems(ids)| == |ids|
  {
    if ids == [] {
      assert Elems(ids) == {};
    } else {
      var front, last := ids[..|ids| - 1], ids[|ids| - 1];
      Distinct(front);
      assert Elems(ids) == Elems(front) + {last};
    }
  }

  lemma {:induction false} SubsetSmaller(a: set<nat>, b: set<nat>)
    requires a <= b
    ensures |a| <= |b|
  {
    if a != {} {
      var x :| x in a;
      SubsetSmaller(a - {x}, b - {x});
    }
  }
}

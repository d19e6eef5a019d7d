/** Reconciling the stored keys of one source and type with a fetched list. */
module Sync {
  import opened Text
  import opened Keys
  import opened KeyStore

  datatype Fetched = Fetched(
    keyId: string, fingerprint: string, data: string, algorithm: string, comment: string,
    keyBits: Option<int>, expiresAt: Option<int>, userIds: seq<string>, capabilities: seq<string>)

  /** A stored key as the scraper holds it in memory. */
  datatype Snap = Snap(id: nat, row: Row)

  type Existing = map<string, Snap>

  const SEARCH_LIMIT: nat := 1000

  function MetaOf(k: KeyType, f: Fetched): Meta {
    match k
    case SSH => SshMeta(f.algorithm, f.comment, f.keyBits)
    case GPG => GpgMeta(f.algorithm, f.keyBits, f.expiresAt, f.userIds, f.capabilities)
  }

  function ProviderKeyId(f: Fetched): Option<string> {
    if f.keyId == "" then None else Some(f.keyId)
  }

  predicate MetaChanged(k: KeyType, meta: Option<Meta>, f: Fetched) {
    match (k, meta)
    case (SSH, Some(SshMeta(algorithm, comment, _))) => algorithm != f.algorithm || comment != f.comment
    case (GPG, Some(GpgMeta(algorithm, _, expiresAt, _, _))) => algorithm != f.algorithm || expiresAt != f.expiresAt
    case _ => false
  }

  predicate NeedsUpdate(k: KeyType, row: Row, f: Fetched) {
    row.data != f.data || MetaChanged(k, row.meta, f)
  }

  function Refreshed(k: KeyType, row: Row, f: Fetched): Row {
    row.(data := f.data, providerKeyId := ProviderKeyId(f), meta := Some(MetaOf(k, f)))
  }

  function NewRow(source: nat, k: KeyType, f: Fetched): Row {
    Row(source, k, f.fingerprint, f.data, ProviderKeyId(f), Some(MetaOf(k, f)))
  }

  /** What is compared of a stored row and a fetched key of its fingerprint, field by field. */
  predicate Agrees(k: KeyType, row: Row, f: Fetched) {
    && row.data == f.data
    && (k == SSH && row.meta.Some? && row.meta.value.SshMeta? ==>
        row.meta.value.algorithm == f.algorithm && row.meta.value.comment == f.comment)
    && (k == GPG && row.meta.Some? && row.meta.value.GpgMeta? ==>
        row.meta.value.algorithm == f.algorithm && row.meta.value.expiresAt == f.expiresAt)
  }

  lemma NeedsExactly(k: KeyType, row: Row, f: Fetched)
    ensures NeedsUpdate(k, row, f) <==> !Agrees(k, row, f)
  {}

  /** A row that holds the whole of a fetched key's content. */
  predicate Carries(k: KeyType, row: Row, f: Fetched) {
    && row.data == f.data && row.meta.Some?
    && var meta := row.meta.value;
    && meta.algorithm == f.algorithm && meta.keyBits == f.keyBits
    && (k == SSH ==> meta.SshMeta? && meta.comment == f.comment)
    && (k == GPG ==>
        && meta.GpgMeta? && meta.expiresAt == f.expiresAt
        && meta.userIds == f.userIds && meta.capabilities == f.capabilities)
  }

  predicate IsNewRow(row: Row, source: nat, k: KeyType, f: Fetched) {
    && row.source == source && row.keyType == k && row.fingerprint == f.fingerprint && Carries(k, row, f)
    && row.providerKeyId == if f.keyId == "" then None else Some(f.keyId)
  }

  /** The fingerprints a fetched list evidences; keys without one are passed over. */
  function Seen(fetched: seq<Fetched>): set<string> {
    set i | 0 <= i < |fetched| && fetched[i].fingerprint != "" :: fetched[i].fingerprint
  }

  predicate DistinctKeys(fetched: seq<Fetched>) {
    forall i, j :: 0 <= i < j < |fetched| && fetched[i].fingerprint != "" ==>
      fetched[i].fingerprint != fetched[j].fingerprint
  }

  function Other(k: KeyType): KeyType {
    if k == SSH then GPG else SSH
  }

  /** The in-memory map and the store agree on which row has which fingerprint. */
  predicate Tracks(existing: Existing, rows: Rows, source: nat, k: KeyType) {
    forall fp :: fp in existing ==>
      && fp != "" && existing[fp].row.fingerprint == fp
      && existing[fp].id in rows && Of(rows[existing[fp].id], source, k)
      && rows[existing[fp].id].fingerprint == fp
  }

  predicate Mine(existing: Existing, id: nat, fp: string) {
    fp in existing && existing[fp].id == id
  }

  /** A stored row as writing a fetched key into it leaves it; its recorded id is the key's, if
      that has one, else what was there or what a duplicate had. */
  predicate WrittenFrom(stored: Row, row: Row, f: Fetched, done: seq<Fetched>, k: KeyType) {
    && row.source == stored.source && row.keyType == stored.keyType
    && f.fingerprint == stored.fingerprint == row.fingerprint && Carries(k, row, f)
    && (f.keyId != "" ==> row.providerKeyId == Some(f.keyId))
    && (row.providerKeyId == stored.providerKeyId || Given(row.providerKeyId, stored.fingerprint, done))
  }

  predicate Given(id: Option<string>, fp: string, done: seq<Fetched>) {
    exists j :: 0 <= j < |done| && done[j].fingerprint == fp && done[j].keyId != "" && id == Some(done[j].keyId)
  }

  predicate AddedFrom(row: Row, done: seq<Fetched>, source: nat, k: KeyType) {
    exists i :: 0 <= i < |done| && IsNewRow(row, source, k, done[i])
  }

  predicate ChangedFrom(stored: Row, row: Row, done: seq<Fetched>, k: KeyType) {
    Differs(stored, done, k) && exists i :: 0 <= i < |done| && WrittenFrom(stored, row, done[i], done, k)
  }

  /** Some fetched key of its fingerprint does not agree with the row. */
  predicate Differs(stored: Row, done: seq<Fetched>, k: KeyType) {
    exists i :: 0 <= i < |done| && done[i].fingerprint == stored.fingerprint && !Agrees(k, stored, done[i])
  }

  /** A key is in memory as it was stored, unless one fetched so far does not agree with that. */
  predicate Grounded(existing: Existing, r0: Rows, done: seq<Fetched>, k: KeyType) {
    forall fp :: fp in existing ==>
      existing[fp].id in r0 ==>
        existing[fp].row == r0[existing[fp].id] || Differs(r0[existing[fp].id], done, k)
  }

  /** What an added or changed row holds is what was fetched. */
  predicate Contents(r0: Rows, rows: Rows, done: seq<Fetched>, source: nat, k: KeyType) {
    && (forall id :: id in rows && id !in r0 ==> AddedFrom(rows[id], done, source, k))
    && (forall id :: id in rows && id in r0 && rows[id] != r0[id] ==> ChangedFrom(r0[id], rows[id], done, k))
  }

  /** Rows that were there keep who they are; their content changes only for a seen key of
      the map, and only when an update is counted. */
  predicate KeepsOld(r0: Rows, rows: Rows, existing: Existing, seen: set<string>, updated: nat) {
    forall id :: id in r0 ==>
      && id in rows
      && rows[id].(data := r0[id].data, providerKeyId := r0[id].providerKeyId, meta := r0[id].meta) == r0[id]
      && (rows[id] == r0[id] ||
          (updated > 0 && r0[id].fingerprint in seen && Mine(existing, id, r0[id].fingerprint)))
  }

  /** New rows are of this source and type, for seen keys that were not in the map. */
  predicate AddsNew(r0: Rows, rows: Rows, existing: Existing, seen: set<string>, source: nat, k: KeyType) {
    forall id :: id in rows && id !in r0 ==>
      Of(rows[id], source, k) && rows[id].fingerprint in seen && rows[id].fingerprint !in existing
  }

  /** What the pass over the fetched keys has done so far to the rows it started from. */
  predicate Midway(r0: Rows, rows: Rows, existing: Existing, seen: set<string>, c: Counts, source: nat, k: KeyType) {
    && Tracks(existing, rows, source, k)
    && KeepsOld(r0, rows, existing, seen, c.updated)
    && AddsNew(r0, rows, existing, seen, source, k)
    && |rows| == |r0| + c.added
    && c.removed == 0
  }

  /** A listed row for a fetched key, or one made from it, holds what was fetched. */
  predicate UpToDate(rows: Rows, f: Fetched, source: nat, k: KeyType) {
    forall id :: id in rows && Of(rows[id], source, k) && rows[id].fingerprint == f.fingerprint ==>
      Agrees(k, rows[id], f)
  }

  predicate SameContent(existing: Existing, rows: Rows) {
    forall fp :: fp in existing ==>
      && existing[fp].id in rows
      && existing[fp].row.data == rows[existing[fp].id].data && existing[fp].row.meta == rows[existing[fp].id].meta
  }

  /** What holds as well while no call has failed. */
  predicate Faithful(rows: Rows, existing: Existing, done: seq<Fetched>, source: nat, k: KeyType) {
    && SameContent(existing, rows)
    && (forall fp :: fp in Seen(done) ==> Claimed(rows, source, fp))
  }

  predicate AllUpToDate(rows: Rows, done: seq<Fetched>, source: nat, k: KeyType) {
    forall i :: 0 <= i < |done| && done[i].fingerprint != "" ==> UpToDate(rows, done[i], source, k)
  }

  predicate AllSeen(existing: Existing, rows: Rows, source: nat, k: KeyType) {
    forall id :: id in rows && Of(rows[id], source, k) && rows[id].fingerprint != "" ==>
      Mine(existing, id, rows[id].fingerprint)
  }

  /** Nothing left to do for this list. */
  predicate Settled(rows: Rows, fetched: seq<Fetched>, source: nat, k: KeyType) {
    && (forall fp :: fp in Seen(fetched) ==> Claimed(rows, source, fp))
    && AllUpToDate(rows, fetched, source, k)
    && (forall id :: id in rows && Of(rows[id], source, k) && rows[id].fingerprint != "" ==>
        rows[id].fingerprint in Seen(fetched))
  }

  predicate Exact(existing: Existing, rows: Rows) {
    forall fp :: fp in existing ==> existing[fp].id in rows && existing[fp].row == rows[existing[fp].id]
  }

  lemma SeenSnoc(fetched: seq<Fetched>, i: nat)
    requires i < |fetched|
    ensures Seen(fetched[..i + 1]) ==
      Seen(fetched[..i]) + if fetched[i].fingerprint == "" then {} else {fetched[i].fingerprint}
    ensures fetched[i].fingerprint == "" ==> Seen(fetched[..i + 1]) == Seen(fetched[..i])
    ensures DistinctKeys(fetched) ==> fetched[i].fingerprint !in Seen(fetched[..i])
    ensures fetched[i].fingerprint != "" ==> fetched[i].fingerprint in Seen(fetched)
  {
    var a, b := fetched[..i], fetched[..i + 1];
    assert forall j :: 0 <= j < i ==> b[j] == a[j];
    forall fp | fp in Seen(b)
      ensures fp in Seen(a) || (fp == fetched[i].fingerprint && fp != "")
    {
      var j :| 0 <= j < |b| && b[j].fingerprint != "" && b[j].fingerprint == fp;
      assert j < i ==> a[j].fingerprint == fp;
    }
    forall fp | fp in Seen(a)
      ensures fp in Seen(b)
    {
      var j :| 0 <= j < |a| && a[j].fingerprint != "" && a[j].fingerprint == fp;
      assert b[j].fingerprint == fp;
    }
    if fetched[i].fingerprint != "" {
      assert b[i].fingerprint in Seen(b);
    }
  }

  /** One fetched key found in the map. */
  lemma UpdateStep(r0: Rows, rows: Rows, rows': Rows, existing: Existing, seen: set<string>, c: Counts,
      snap: Snap, changed: bool, source: nat, k: KeyType)
    requires Midway(r0, rows, existing, seen, c, source, k) && OnePerSource(rows)
    requires var fp := snap.row.fingerprint; fp in existing && snap.id == existing[fp].id && snap.id in rows
    requires rows' == if changed then rows[snap.id := Updated(rows[snap.id], snap.row)] else rows
    ensures var fp := snap.row.fingerprint;
      Midway(r0, rows', existing[fp := snap], seen + {fp}, if changed then c.(updated := c.updated + 1) else c,
        source, k)
  {
    MidwayIs(r0, rows, existing, seen, c, source, k);
    SameSize(rows, rows');
    UpdateTracks(rows, rows', existing, snap, changed, source, k);
    UpdateKeeps(r0, rows, rows', existing, seen, c.updated, snap, changed, source, k);
    UpdateAdds(r0, rows, rows', existing, seen, snap, source, k);
    hide Tracks, KeepsOld, AddsNew, OnePerSource, Of, Updated;
  }

  lemma UpdateAdds(r0: Rows, rows: Rows, rows': Rows, existing: Existing, seen: set<string>, snap: Snap,
      source: nat, k: KeyType)
    requires AddsNew(r0, rows, existing, seen, source, k) && rows'.Keys == rows.Keys
    requires snap.row.fingerprint in existing
    requires forall id :: id in rows ==>
      rows'[id].fingerprint == rows[id].fingerprint && Of(rows'[id], source, k) == Of(rows[id], source, k)
    ensures AddsNew(r0, rows', existing[snap.row.fingerprint := snap], seen + {snap.row.fingerprint}, source, k)
  {
    hide Of;
  }

  lemma UpdateTracks(rows: Rows, rows': Rows, existing: Existing, snap: Snap, changed: bool, source: nat, k: KeyType)
    requires Tracks(existing, rows, source, k)
    requires var fp := snap.row.fingerprint; fp in existing && snap.id == existing[fp].id && snap.id in rows
    requires rows' == if changed then rows[snap.id := Updated(rows[snap.id], snap.row)] else rows
    ensures Tracks(existing[snap.row.fingerprint := snap], rows', source, k)
    ensures rows'.Keys == rows.Keys
    ensures forall id :: id in rows ==>
      rows'[id].fingerprint == rows[id].fingerprint && Of(rows'[id], source, k) == Of(rows[id], source, k)
  {}

  lemma UpdateKeeps(r0: Rows, rows: Rows, rows': Rows, existing: Existing, seen: set<string>, updated: nat,
      snap: Snap, changed: bool, source: nat, k: KeyType)
    requires Tracks(existing, rows, source, k) && KeepsOld(r0, rows, existing, seen, updated)
    requires var fp := snap.row.fingerprint; fp in existing && snap.id == existing[fp].id && snap.id in rows
    requires rows' == if changed then rows[snap.id := Updated(rows[snap.id], snap.row)] else rows
    ensures KeepsOld(r0, rows', existing[snap.row.fingerprint := snap], seen + {snap.row.fingerprint},
      if changed then updated + 1 else updated)
  {}

  lemma SameSize(a: Rows, b: Rows)
    ensures a.Keys == b.Keys ==> |a| == |b|
  {
    assert |a| == |a.Keys| && |b| == |b.Keys|;
  }

  /** One fetched key not in the map. */
  lemma CreateStep(r0: Rows, rows: Rows, rows': Rows, existing: Existing, seen: set<string>, c: Counts,
      f: Fetched, id: Option<nat>, source: nat, k: KeyType)
    requires Midway(r0, rows, existing, seen, c, source, k)
    requires f.fingerprint !in existing && (id.Some? ==> id.value !in rows)
    requires rows' == if id.Some? then rows[id.value := NewRow(source, k, f)] else rows
    ensures Midway(r0, rows', existing, seen + {f.fingerprint},
      if id.Some? then c.(added := c.added + 1) else c, source, k)
  {}

  /** While no call fails. */

  lemma UpdateFaithful(rows: Rows, rows': Rows, existing: Existing, done: seq<Fetched>, done': seq<Fetched>,
      f: Fetched, snap: Snap, changed: bool, source: nat, k: KeyType)
    requires Tracks(existing, rows, source, k) && Faithful(rows, existing, done, source, k)
    requires f.fingerprint in existing && Seen(done') == Seen(done) + {f.fingerprint}
    requires var old' := existing[f.fingerprint];
      && snap == (if NeedsUpdate(k, old'.row, f) then Snap(old'.id, Refreshed(k, old'.row, f)) else old')
      && changed == NeedsUpdate(k, old'.row, f)
    requires rows' == if changed then rows[snap.id := Updated(rows[snap.id], snap.row)] else rows
    ensures Faithful(rows', existing[f.fingerprint := snap], done', source, k)
  {
    hide Seen, MetaChanged, MetaOf;
    forall fp | fp in Seen(done')
      ensures Claimed(rows', source, fp)
    {
      var id :| id in rows && rows[id].source == source && rows[id].fingerprint == fp;
      assert id in rows' && rows'[id].source == source && rows'[id].fingerprint == fp;
    }
  }

  lemma CreateFaithful(rows: Rows, rows': Rows, existing: Existing, done: seq<Fetched>, done': seq<Fetched>,
      f: Fetched, id: Option<nat>, source: nat, k: KeyType)
    requires Tracks(existing, rows, source, k) && Faithful(rows, existing, done, source, k)
    requires Seen(done') == Seen(done) + {f.fingerprint} && (id.Some? ==> id.value !in rows)
    requires id.None? ==> Claimed(rows, source, f.fingerprint)
    requires rows' == if id.Some? then rows[id.value := NewRow(source, k, f)] else rows
    ensures Faithful(rows', existing, done', source, k)
  {
    hide Seen, MetaOf;
    forall fp | fp in Seen(done')
      ensures Claimed(rows', source, fp)
    {
      if id.Some? && fp == f.fingerprint {
        assert rows'[id.value].fingerprint == fp;
      } else {
        var j :| j in rows && rows[j].source == source && rows[j].fingerprint == fp;
        assert rows'[j] == rows[j];
      }
    }
  }

  lemma RefreshedIsCurrent(k: KeyType, row: Row, stored: Row, f: Fetched, source: nat)
    ensures Agrees(k, Updated(stored, Refreshed(k, row, f)), f)
    ensures Agrees(k, NewRow(source, k, f), f)
  {}

  /** With distinct keys, what is brought up to date stays so. */
  lemma StepUpToDate(rows: Rows, rows': Rows, fetched: seq<Fetched>, i: nat, source: nat, k: KeyType)
    requires i < |fetched| && DistinctKeys(fetched) && fetched[i].fingerprint != ""
    requires AllUpToDate(rows, fetched[..i], source, k) && UpToDate(rows', fetched[i], source, k)
    requires forall id :: id in rows' && rows'[id].fingerprint != fetched[i].fingerprint ==>
      id in rows && rows'[id] == rows[id]
    ensures AllUpToDate(rows', fetched[..i + 1], source, k)
  {
    hide NeedsUpdate;
    forall j | 0 <= j < i && fetched[j].fingerprint != ""
      ensures UpToDate(rows', fetched[j], source, k)
    {
      assert fetched[..i][j] == fetched[j];
      assert UpToDate(rows, fetched[..i][j], source, k);
    }
    assert forall j :: 0 <= j < i + 1 ==> fetched[..i + 1][j] == fetched[j];
  }

  lemma UpdateUpToDate(rows: Rows, rows': Rows, existing: Existing, f: Fetched, snap: Snap, changed: bool,
      source: nat, k: KeyType)
    requires Tracks(existing, rows, source, k) && SameContent(existing, rows) && OnePerSource(rows)
    requires f.fingerprint in existing
    requires var old' := existing[f.fingerprint];
      && snap == (if NeedsUpdate(k, old'.row, f) then Snap(old'.id, Refreshed(k, old'.row, f)) else old')
      && changed == NeedsUpdate(k, old'.row, f)
    requires rows' == if changed then rows[snap.id := Updated(rows[snap.id], snap.row)] else rows
    ensures UpToDate(rows', f, source, k)
    ensures forall id :: id in rows' && rows'[id].fingerprint != f.fingerprint ==> id in rows && rows'[id] == rows[id]
  {
    var old' := existing[f.fingerprint];
    RefreshedIsCurrent(k, old'.row, rows[old'.id], f, source);
    forall id | id in rows' && Of(rows'[id], source, k) && rows'[id].fingerprint == f.fingerprint
      ensures Agrees(k, rows'[id], f)
    {
      assert id == old'.id;
    }
  }

  lemma CreateUpToDate(rows: Rows, rows': Rows, f: Fetched, id: nat, source: nat, k: KeyType)
    requires id !in rows && rows' == rows[id := NewRow(source, k, f)] && !Claimed(rows, source, f.fingerprint)
    ensures UpToDate(rows', f, source, k)
    ensures forall j :: j in rows' && rows'[j].fingerprint != f.fingerprint ==> j in rows && rows'[j] == rows[j]
  {
    RefreshedIsCurrent(k, rows'[id], rows'[id], f, source);
  }

  /** What deleting the stale keys of the map does. */
  predicate Purged(before: Rows, rows: Rows, existing: Existing, seen: set<string>, removed: nat) {
    && (forall id :: id in rows ==> id in before && rows[id] == before[id])
    && (forall id :: id in before && id !in rows ==>
        before[id].fingerprint !in seen && Mine(existing, id, before[id].fingerprint))
    && |before| == |rows| + removed
  }

  /** Of the map's keys still to look at, none has lost its row. */
  predicate Remaining(existing: Existing, left: set<string>, rows: Rows) {
    forall fp :: fp in left ==> fp in existing && existing[fp].id in rows
  }

  /** Of those looked at, none that is stale has one. */
  predicate NoneLeft(existing: Existing, seen: set<string>, left: set<string>, rows: Rows) {
    forall fp :: fp in existing && fp !in seen && fp !in left ==> existing[fp].id !in rows
  }

  /** One key of the map, left alone, failed to be deleted or deleted. */
  lemma PurgeStep(before: Rows, rows: Rows, existing: Existing, seen: set<string>, left: set<string>, removed: nat,
      fp: string, source: nat, k: KeyType)
    requires Tracks(existing, before, source, k) && Purged(before, rows, existing, seen, removed)
    requires fp in left && Remaining(existing, left, rows)
    ensures fp in existing && existing[fp].id in rows && Remaining(existing, left - {fp}, rows)
    ensures Remaining(existing, left - {fp}, rows - {existing[fp].id})
    ensures fp !in seen ==> Purged(before, rows - {existing[fp].id}, existing, seen, removed + 1)
    ensures NoneLeft(existing, seen, left, rows) ==>
      NoneLeft(existing, seen, left - {fp}, if fp in seen then rows else rows - {existing[fp].id})
  {
    PurgedKey(before, rows, existing, seen, removed, fp, source, k);
    OtherKeys(existing, before, fp, source, k);
    hide Tracks;
    if fp !in seen {
      PurgeOne(before, rows, existing, seen, removed, existing[fp].id);
    }
    hide Purged;
  }

  lemma PurgeOne(before: Rows, rows: Rows, existing: Existing, seen: set<string>, removed: nat, id: nat)
    requires Purged(before, rows, existing, seen, removed) && id in rows
    requires rows[id].fingerprint !in seen && Mine(existing, id, rows[id].fingerprint)
    ensures Purged(before, rows - {id}, existing, seen, removed + 1)
  {
    assert (rows - {id}).Keys == rows.Keys - {id};
    assert |rows - {id}| == |(rows - {id}).Keys|;
  }

  lemma PurgedKey(before: Rows, rows: Rows, existing: Existing, seen: set<string>, removed: nat, fp: string,
      source: nat, k: KeyType)
    requires Tracks(existing, before, source, k) && Purged(before, rows, existing, seen, removed)
    requires fp in existing && existing[fp].id in rows
    ensures rows[existing[fp].id].fingerprint == fp && Mine(existing, existing[fp].id, fp)
  {}

  lemma OtherKeys(existing: Existing, rows: Rows, fp: string, source: nat, k: KeyType)
    requires Tracks(existing, rows, source, k) && fp in existing
    ensures forall other :: other in existing && other != fp ==> existing[other].id != existing[fp].id
  {}

  /** What a whole pass may do, whatever failed: it adds only rows for fetched keys that no
      row of the source had, removes only listed keys the provider no longer lists, leaves
      every other row alone, and counts exactly. */
  predicate Reconciles(r0: Rows, rows: Rows, fetched: seq<Fetched>, c: Counts, source: nat, k: KeyType) {
    && |rows.Keys - r0.Keys| == c.added && |r0.Keys - rows.Keys| == c.removed
    && (forall id :: id in r0 && id !in rows ==>
        Of(r0[id], source, k) && r0[id].fingerprint != "" && r0[id].fingerprint !in Seen(fetched))
    && (forall id :: id in rows && id !in r0 ==>
        && Of(rows[id], source, k) && rows[id].fingerprint in Seen(fetched)
        && !Claimed(r0, source, rows[id].fingerprint))
    && (forall id :: id in r0 && id in rows ==>
        && SameKey(r0[id], rows[id])
        && (rows[id] == r0[id] || (c.updated > 0 && Of(r0[id], source, k) && r0[id].fingerprint in Seen(fetched))))
    && Contents(r0, rows, fetched, source, k)
  }

  predicate SameKey(a: Row, b: Row) {
    a.source == b.source && a.keyType == b.keyType && a.fingerprint == b.fingerprint
  }

  lemma SetSizes(a: set<nat>, m: set<nat>, b: set<nat>)
    requires a <= m && b <= m && m - b <= a
    ensures |b - a| == |m| - |a| && |a - b| == |m| - |b|
  {
    assert m == a + (m - a) && m == b + (m - b);
    assert b - a == m - a;
    assert a - b == m - b;
  }

  lemma KeyCount(rows: Rows)
    ensures |rows| == |rows.Keys|
  {}

  lemma OldIsIn(r0: Rows, mid: Rows, existing: Existing, seen: set<string>, updated: nat)
    requires KeepsOld(r0, mid, existing, seen, updated)
    ensures r0.Keys <= mid.Keys
    ensures forall id :: id in r0 ==> SameKey(r0[id], mid[id])
  {}

  lemma NewSurvive(r0: Rows, mid: Rows, rows: Rows, existing: Existing, seen: set<string>,
      removed: nat, source: nat, k: KeyType)
    requires AddsNew(r0, mid, existing, seen, source, k) && Purged(mid, rows, existing, seen, removed)
    ensures rows.Keys <= mid.Keys && mid.Keys - rows.Keys <= r0.Keys
    ensures |mid| == |rows| + removed
  {}

  lemma KeySets(r0: Rows, mid: Rows, rows: Rows, added: nat, removed: nat)
    requires r0.Keys <= mid.Keys && rows.Keys <= mid.Keys && mid.Keys - rows.Keys <= r0.Keys
    requires |mid| == |r0| + added && |mid| == |rows| + removed
    ensures |rows.Keys - r0.Keys| == added && |r0.Keys - rows.Keys| == removed
  {
    KeyCount(r0);
    KeyCount(mid);
    KeyCount(rows);
    SetSizes(r0.Keys, mid.Keys, rows.Keys);
  }

  lemma PassCounts(r0: Rows, mid: Rows, rows: Rows, existing: Existing, seen: set<string>, c: Counts,
      removed: nat, source: nat, k: KeyType)
    requires Midway(r0, mid, existing, seen, c, source, k) && Purged(mid, rows, existing, seen, removed)
    ensures |rows.Keys - r0.Keys| == c.added && |r0.Keys - rows.Keys| == removed
  {
    MidwayIs(r0, mid, existing, seen, c, source, k);
    hide *;
    OldIsIn(r0, mid, existing, seen, c.updated);
    NewSurvive(r0, mid, rows, existing, seen, removed, source, k);
    KeySets(r0, mid, rows, c.added, removed);
  }

  lemma MidwayIs(r0: Rows, rows: Rows, existing: Existing, seen: set<string>, c: Counts, source: nat, k: KeyType)
    requires Midway(r0, rows, existing, seen, c, source, k)
    ensures Tracks(existing, rows, source, k) && KeepsOld(r0, rows, existing, seen, c.updated)
    ensures AddsNew(r0, rows, existing, seen, source, k) && |rows| == |r0| + c.added && c.removed == 0
  {}

  /** The rows removed, the rows added and the rows that stay. */

  lemma RemovedAre(r0: Rows, mid: Rows, rows: Rows, existing: Existing, seen: set<string>, updated: nat,
      removed: nat, source: nat, k: KeyType)
    requires Tracks(existing, mid, source, k) && KeepsOld(r0, mid, existing, seen, updated)
    requires Purged(mid, rows, existing, seen, removed)
    ensures forall id :: id in r0 && id !in rows ==>
      Of(r0[id], source, k) && r0[id].fingerprint != "" && r0[id].fingerprint !in seen
  {
    OldIsIn(r0, mid, existing, seen, updated);
    hide KeepsOld;
  }

  lemma AddedAre(r0: Rows, mid: Rows, rows: Rows, existing: Existing, seen: set<string>, updated: nat,
      removed: nat, source: nat, k: KeyType)
    requires KeepsOld(r0, mid, existing, seen, updated) && AddsNew(r0, mid, existing, seen, source, k)
    requires Purged(mid, rows, existing, seen, removed) && OnePerSource(mid)
    ensures forall id :: id in rows && id !in r0 ==>
      && Of(rows[id], source, k) && rows[id].fingerprint in seen
      && !Claimed(r0, source, rows[id].fingerprint)
  {
    OldIsIn(r0, mid, existing, seen, updated);
    hide KeepsOld;
  }

  lemma KeptAre(r0: Rows, mid: Rows, rows: Rows, existing: Existing, seen: set<string>, updated: nat,
      removed: nat, source: nat, k: KeyType)
    requires Tracks(existing, mid, source, k) && KeepsOld(r0, mid, existing, seen, updated)
    requires Purged(mid, rows, existing, seen, removed)
    ensures forall id :: id in r0 && id in rows ==>
      && SameKey(r0[id], rows[id])
      && (rows[id] == r0[id] || (updated > 0 && Of(r0[id], source, k) && r0[id].fingerprint in seen))
  {}

  lemma PassReconciles(r0: Rows, mid: Rows, rows: Rows, existing: Existing, fetched: seq<Fetched>, c: Counts,
      removed: nat, source: nat, k: KeyType)
    requires Midway(r0, mid, existing, Seen(fetched), c, source, k) && OnePerSource(mid)
    requires Purged(mid, rows, existing, Seen(fetched), removed) && Contents(r0, mid, fetched, source, k)
    ensures Reconciles(r0, rows, fetched, c.(removed := removed), source, k)
  {
    var seen := Seen(fetched);
    PurgeContents(r0, mid, rows, existing, seen, removed, fetched, source, k);
    MidwayIs(r0, mid, existing, seen, c, source, k);
    PassCounts(r0, mid, rows, existing, seen, c, removed, source, k);
    RemovedAre(r0, mid, rows, existing, seen, c.updated, removed, source, k);
    AddedAre(r0, mid, rows, existing, seen, c.updated, removed, source, k);
    KeptAre(r0, mid, rows, existing, seen, c.updated, removed, source, k);
    hide Seen, Midway, Tracks, KeepsOld, AddsNew, Purged, OnePerSource, Claimed, SameKey, Of, Contents;
  }

  /** What a pass in which nothing failed leaves: exactly the fetched fingerprints, but for
      those the other key type of the source holds. */
  ghost predicate Matches(r0: Rows, rows: Rows, fetched: seq<Fetched>, source: nat, k: KeyType) {
    forall fp :: fp != "" ==>
      (Holds(rows, source, k, fp) <==> fp in Seen(fetched) && !Holds(r0, source, Other(k), fp))
  }

  lemma PassClaims(mid: Rows, rows: Rows, existing: Existing, fetched: seq<Fetched>, removed: nat,
      source: nat, fp: string)
    requires Purged(mid, rows, existing, Seen(fetched), removed)
    requires Claimed(mid, source, fp) && fp in Seen(fetched)
    ensures Claimed(rows, source, fp)
  {
    hide Seen;
    var id :| id in mid && mid[id].source == source && mid[id].fingerprint == fp;
    assert id in rows && rows[id] == mid[id];
  }

  lemma OtherStays(r0: Rows, rows: Rows, fetched: seq<Fetched>, c: Counts, source: nat, k: KeyType, fp: string)
    requires Reconciles(r0, rows, fetched, c, source, k)
    ensures Holds(rows, source, Other(k), fp) <==> Holds(r0, source, Other(k), fp)
  {
    hide Seen, Claimed;
    if Holds(r0, source, Other(k), fp) {
      var id :| id in r0 && Of(r0[id], source, Other(k)) && r0[id].fingerprint == fp;
      assert id in rows && rows[id] == r0[id];
    }
    if Holds(rows, source, Other(k), fp) {
      var id :| id in rows && Of(rows[id], source, Other(k)) && rows[id].fingerprint == fp;
      assert id in r0;
    }
  }

  lemma PassMatches(r0: Rows, rows: Rows, fetched: seq<Fetched>, c: Counts, source: nat, k: KeyType)
    requires Reconciles(r0, rows, fetched, c, source, k) && OnePerSource(rows)
    requires forall fp :: fp in Seen(fetched) ==> Claimed(rows, source, fp)
    requires forall id :: id in rows && Of(rows[id], source, k) && rows[id].fingerprint != "" ==>
      rows[id].fingerprint in Seen(fetched)
    ensures Matches(r0, rows, fetched, source, k)
  {
    hide Reconciles, Seen;
    forall fp | fp != ""
      ensures Holds(rows, source, k, fp) <==> fp in Seen(fetched) && !Holds(r0, source, Other(k), fp)
    {
      OtherStays(r0, rows, fetched, c, source, k, fp);
    }
  }

  /** The stored fingerprints are the fetched ones exactly when none of those is held by the
      other key type. */
  lemma ReconciledExactly(r0: Rows, rows: Rows, fetched: seq<Fetched>, source: nat, k: KeyType)
    requires Matches(r0, rows, fetched, source, k)
    ensures (forall fp :: fp != "" ==> (Holds(rows, source, k, fp) <==> fp in Seen(fetched))) <==>
      (forall fp :: fp in Seen(fetched) ==> !Holds(r0, source, Other(k), fp))
  {
    hide Holds;
    assert "" !in Seen(fetched);
  }

  /** A listed stored key is in the map under its fingerprint. */
  predicate MapOf(existing: Existing, rows: Rows, ids: seq<nat>, source: nat, k: KeyType) {
    && Tracks(existing, rows, source, k) && Exact(existing, rows)
    && (forall i :: 0 <= i < |ids| && ids[i] in rows && rows[ids[i]].fingerprint != "" ==>
        Mine(existing, ids[i], rows[ids[i]].fingerprint))
  }

  /** With nothing left to do, a fetched key needs neither an update nor a row. */
  lemma SettledKey(r0: Rows, existing: Existing, fetched: seq<Fetched>, i: nat, source: nat, k: KeyType)
    requires Settled(r0, fetched, source, k) && i < |fetched| && fetched[i].fingerprint != ""
    requires Tracks(existing, r0, source, k) && Exact(existing, r0)
    ensures var fp := fetched[i].fingerprint;
      && Claimed(r0, source, fp)
      && (fp in existing ==> !NeedsUpdate(k, existing[fp].row, fetched[i]))
  {
    SeenSnoc(fetched, i);
    hide Seen, NeedsUpdate;
    assert UpToDate(r0, fetched[i], source, k);
  }

  lemma TracksKey(existing: Existing, rows: Rows, fp: string, source: nat, k: KeyType)
    requires Tracks(existing, rows, source, k) && fp in existing
    ensures existing[fp].row.fingerprint == fp && existing[fp].id in rows && rows[existing[fp].id].fingerprint == fp
  {}

  lemma RefreshedKey(k: KeyType, row: Row, f: Fetched)
    ensures Refreshed(k, row, f).fingerprint == row.fingerprint
  {}

  lemma FaithfulIs(rows: Rows, existing: Existing, done: seq<Fetched>, source: nat, k: KeyType)
    requires Faithful(rows, existing, done, source, k)
    ensures SameContent(existing, rows) && forall fp :: fp in Seen(done) ==> Claimed(rows, source, fp)
  {}

  lemma SkipKey(rows: Rows, existing: Existing, fetched: seq<Fetched>, i: nat, source: nat, k: KeyType)
    requires i < |fetched| && fetched[i].fingerprint == ""
    ensures Seen(fetched[..i + 1]) == Seen(fetched[..i])
    ensures Faithful(rows, existing, fetched[..i], source, k) ==> Faithful(rows, existing, fetched[..i + 1], source, k)
    ensures AllUpToDate(rows, fetched[..i], source, k) ==> AllUpToDate(rows, fetched[..i + 1], source, k)
  {
    SeenSnoc(fetched, i);
    hide Seen, UpToDate;
    assert forall j :: 0 <= j < i ==> fetched[..i + 1][j] == fetched[..i][j];
  }

  lemma SameIds(existing: Existing, fp: string, snap: Snap, r0: Rows, source: nat, k: KeyType)
    requires fp in existing && existing[fp].id == snap.id
    ensures AllSeen(existing, r0, source, k) <==> AllSeen(existing[fp := snap], r0, source, k)
  {}

  /** A refused key is claimed by the other type, when the map misses nothing. */
  lemma RefusedIsElsewhere(r0: Rows, rows: Rows, existing: Existing, fetched: seq<Fetched>, i: nat, c: Counts,
      source: nat, k: KeyType)
    requires i < |fetched| && Midway(r0, rows, existing, Seen(fetched[..i]), c, source, k)
    requires DistinctKeys(fetched) && AllSeen(existing, r0, source, k)
    requires fetched[i].fingerprint != "" && fetched[i].fingerprint !in existing
    ensures UpToDate(rows, fetched[i], source, k)
  {
    SeenSnoc(fetched, i);
    MidwayIs(r0, rows, existing, Seen(fetched[..i]), c, source, k);
    OldIsIn(r0, rows, existing, Seen(fetched[..i]), c.updated);
    hide Midway, KeepsOld, Seen, Tracks, NeedsUpdate;
    var fp := fetched[i].fingerprint;
    assert forall id :: id in rows && Of(rows[id], source, k) && rows[id].fingerprint == fp ==> id !in r0;
  }

  /** Every stored fingerprint left is a fetched one, when the map misses nothing. */
  lemma NoneStale(r0: Rows, mid: Rows, rows: Rows, existing: Existing, seen: set<string>, c: Counts,
      removed: nat, source: nat, k: KeyType)
    requires Midway(r0, mid, existing, seen, c, source, k) && AllSeen(existing, r0, source, k)
    requires Purged(mid, rows, existing, seen, removed)
    requires forall fp :: fp in existing && fp !in seen ==> existing[fp].id !in rows
    ensures forall id :: id in rows && Of(rows[id], source, k) && rows[id].fingerprint != "" ==>
      rows[id].fingerprint in seen
  {
    MidwayIs(r0, mid, existing, seen, c, source, k);
    OldIsIn(r0, mid, existing, seen, c.updated);
    hide Midway, KeepsOld, Tracks;
    forall id | id in rows && Of(rows[id], source, k) && rows[id].fingerprint != ""
      ensures rows[id].fingerprint in seen
    {
      if id in r0 {
        assert Of(r0[id], source, k) && Mine(existing, id, r0[id].fingerprint);
      }
    }
  }

  lemma PurgeUpToDate(mid: Rows, rows: Rows, existing: Existing, fetched: seq<Fetched>, seen: set<string>,
      removed: nat, source: nat, k: KeyType)
    requires AllUpToDate(mid, fetched, source, k) && Purged(mid, rows, existing, seen, removed)
    ensures AllUpToDate(rows, fetched, source, k)
  {
    hide NeedsUpdate;
    forall i | 0 <= i < |fetched| && fetched[i].fingerprint != ""
      ensures UpToDate(rows, fetched[i], source, k)
    {
      assert UpToDate(mid, fetched[i], source, k);
    }
  }

  lemma AllClaimed(mid: Rows, rows: Rows, existing: Existing, fetched: seq<Fetched>, removed: nat,
      source: nat, k: KeyType)
    requires Faithful(mid, existing, fetched, source, k) && Purged(mid, rows, existing, Seen(fetched), removed)
    ensures forall fp :: fp in Seen(fetched) ==> Claimed(rows, source, fp)
  {
    hide Seen, Claimed, Purged, SameContent;
    forall fp | fp in Seen(fetched)
      ensures Claimed(rows, source, fp)
    {
      PassClaims(mid, rows, existing, fetched, removed, source, fp);
    }
  }

  lemma EmptyMeans(existing: Existing, rows: Rows, ids: seq<nat>, source: nat, k: KeyType)
    requires MapOf(existing, rows, ids, source, k)
    ensures Midway(rows, rows, existing, {}, NOTHING, source, k) && Exact(existing, rows)
    ensures Faithful(rows, existing, [], source, k) && AllUpToDate(rows, [], source, k)
    ensures Seen([]) == {}
    ensures (forall id :: id in rows && Of(rows[id], source, k) ==> id in ids) ==> AllSeen(existing, rows, source, k)
  {}

  /** With nothing left to do, nothing in the map is stale. */
  lemma SettledPurge(r0: Rows, rows: Rows, existing: Existing, fetched: seq<Fetched>, removed: nat,
      source: nat, k: KeyType)
    requires Settled(r0, fetched, source, k) && Tracks(existing, r0, source, k)
    requires Purged(r0, rows, existing, Seen(fetched), removed)
    ensures rows == r0 && removed == 0
  {
    hide Seen, AllUpToDate, Claimed;
    assert forall id :: id in r0 ==> id in rows;
    assert rows == r0;
  }

  /** Every stored row for a fetched key agrees with it. */
  predicate Current(rows: Rows, fetched: seq<Fetched>, source: nat, k: KeyType) {
    forall id, i :: id in rows && 0 <= i < |fetched| ==>
      (rows[id].source == source && rows[id].keyType == k
       && rows[id].fingerprint == fetched[i].fingerprint && fetched[i].fingerprint != "" ==>
        Agrees(k, rows[id], fetched[i]))
  }

  /** A row all of whose fetched keys agree with it is left as it was. */
  predicate AgreedStay(r0: Rows, rows: Rows, fetched: seq<Fetched>, k: KeyType) {
    forall id :: id in r0 && id in rows ==>
      ((forall i :: 0 <= i < |fetched| && fetched[i].fingerprint == r0[id].fingerprint ==>
          Agrees(k, r0[id], fetched[i])) ==>
        rows[id] == r0[id])
  }

  lemma SettledIsCurrent(rows: Rows, fetched: seq<Fetched>, source: nat, k: KeyType)
    requires Settled(rows, fetched, source, k)
    ensures Current(rows, fetched, source, k)
  {
    hide Seen, Claimed, Agrees;
    forall id, i | id in rows && 0 <= i < |fetched| && rows[id].source == source && rows[id].keyType == k
      && rows[id].fingerprint == fetched[i].fingerprint && fetched[i].fingerprint != ""
      ensures Agrees(k, rows[id], fetched[i])
    {
      assert UpToDate(rows, fetched[i], source, k);
    }
  }

  lemma ReconciledStay(r0: Rows, rows: Rows, fetched: seq<Fetched>, c: Counts, source: nat, k: KeyType)
    requires Reconciles(r0, rows, fetched, c, source, k)
    ensures AgreedStay(r0, rows, fetched, k)
  {
    hide Seen, Claimed, Agrees, Of, SameKey, WrittenFrom, AddedFrom;
    forall id | id in r0 && id in rows && rows[id] != r0[id]
      ensures Differs(r0[id], fetched, k)
    {
      assert ChangedFrom(r0[id], rows[id], fetched, k);
    }
  }

  lemma NothingDone(rows: Rows, fetched: seq<Fetched>, source: nat, k: KeyType)
    ensures Reconciles(rows, rows, fetched, NOTHING, source, k)
  {
    assert rows.Keys - rows.Keys == {};
  }

  /** What a pass promises, from where its two loops end. */
  lemma Concludes(r0: Rows, mid: Rows, rows: Rows, existing: Existing, fetched: seq<Fetched>, c: Counts,
      removed: nat, few: bool, up: bool, source: nat, k: KeyType)
    requires Midway(r0, mid, existing, Seen(fetched), c, source, k) && OnePerSource(mid) && OnePerSource(rows)
    requires Purged(mid, rows, existing, Seen(fetched), removed) && Contents(r0, mid, fetched, source, k)
    requires few ==> AllSeen(existing, r0, source, k)
    requires up ==> Faithful(mid, existing, fetched, source, k)
    requires up && few && DistinctKeys(fetched) ==> AllUpToDate(mid, fetched, source, k)
    requires up ==> forall fp :: fp in existing && fp !in Seen(fetched) ==> existing[fp].id !in rows
    requires Settled(r0, fetched, source, k) ==> mid == r0 && c == NOTHING
    ensures Reconciles(r0, rows, fetched, c.(removed := removed), source, k)
    ensures up && few ==>
      && Matches(r0, rows, fetched, source, k)
      && (DistinctKeys(fetched) ==> Settled(rows, fetched, source, k))
    ensures Settled(r0, fetched, source, k) ==> rows == r0 && c.(removed := removed) == NOTHING
  {
    hide *;
    PassReconciles(r0, mid, rows, existing, fetched, c, removed, source, k);
    if Settled(r0, fetched, source, k) {
      MidwayIs(r0, mid, existing, Seen(fetched), c, source, k);
      SettledPurge(r0, rows, existing, fetched, removed, source, k);
    }
    if up && few {
      AllClaimed(mid, rows, existing, fetched, removed, source, k);
      NoneStale(r0, mid, rows, existing, Seen(fetched), c, removed, source, k);
      PassMatches(r0, rows, fetched, c.(removed := removed), source, k);
      if DistinctKeys(fetched) {
        PurgeUpToDate(mid, rows, existing, fetched, Seen(fetched), removed, source, k);
        NowSettled(rows, fetched, source, k);
      }
    }
  }

  lemma NowSettled(rows: Rows, fetched: seq<Fetched>, source: nat, k: KeyType)
    requires (forall fp :: fp in Seen(fetched) ==> Claimed(rows, source, fp)) && AllUpToDate(rows, fetched, source, k)
    requires forall id :: id in rows && Of(rows[id], source, k) && rows[id].fingerprint != "" ==>
      rows[id].fingerprint in Seen(fetched)
    ensures Settled(rows, fetched, source, k)
  {}

  /** The rows that are still there with other content. */
  function Changed(r0: Rows, rows: Rows): set<nat> {
    set id | id in r0 && id in rows && rows[id] != r0[id]
  }

  /** With distinct keys an update is counted for each row that changed, since a key not yet
      come to is in memory as it is stored. */
  predicate Tallied(r0: Rows, rows: Rows, existing: Existing, seen: set<string>, updated: nat) {
    && (forall fp :: fp in existing && fp !in seen ==> existing[fp].id in r0 && existing[fp].row == r0[existing[fp].id])
    && |Changed(r0, rows)| == updated
  }

  lemma TallyUpdate(r0: Rows, rows: Rows, rows': Rows, existing: Existing, seen: set<string>, updated: nat,
      f: Fetched, snap: Snap, changed: bool, source: nat, k: KeyType)
    requires Tracks(existing, rows, source, k) && KeepsOld(r0, rows, existing, seen, updated)
    requires Tallied(r0, rows, existing, seen, updated)
    requires f.fingerprint in existing && f.fingerprint !in seen
    requires var old' := existing[f.fingerprint];
      && snap == (if NeedsUpdate(k, old'.row, f) then Snap(old'.id, Refreshed(k, old'.row, f)) else old')
      && (changed ==> NeedsUpdate(k, old'.row, f))
    requires snap.id in rows
    requires rows' == if changed then rows[snap.id := Updated(rows[snap.id], snap.row)] else rows
    ensures Tallied(r0, rows', existing[f.fingerprint := snap], seen + {f.fingerprint},
      if changed then updated + 1 else updated)
  {
    var old' := existing[f.fingerprint];
    assert rows[snap.id] == r0[snap.id] == old'.row;
    hide KeepsOld;
    if changed {
      RefreshedIsCurrent(k, old'.row, rows[snap.id], f, source);
      ChangeOne(r0, rows, snap.id, Updated(rows[snap.id], snap.row));
    }
  }

  lemma ChangeOne(r0: Rows, rows: Rows, id: nat, row: Row)
    requires id in r0 && id in rows && rows[id] == r0[id] && row != r0[id]
    ensures |Changed(r0, rows[id := row])| == |Changed(r0, rows)| + 1
  {
    assert Changed(r0, rows[id := row]) == Changed(r0, rows) + {id};
  }

  lemma TallyCreate(r0: Rows, rows: Rows, rows': Rows, existing: Existing, seen: set<string>, updated: nat,
      fp: string, id: Option<nat>, row: Row)
    requires r0.Keys <= rows.Keys && Tallied(r0, rows, existing, seen, updated)
    requires id.Some? ==> id.value !in rows
    requires rows' == if id.Some? then rows[id.value := row] else rows
    ensures Tallied(r0, rows', existing, seen + {fp}, updated)
  {
    assert id.Some? ==> id.value !in r0.Keys;
    assert Changed(r0, rows') == Changed(r0, rows);
  }

  lemma TallyStarts(r0: Rows, existing: Existing)
    requires Exact(existing, r0)
    ensures Tallied(r0, r0, existing, {}, 0)
  {
    assert Changed(r0, r0) == {};
  }

  lemma TallyPurge(r0: Rows, mid: Rows, rows: Rows, existing: Existing, seen: set<string>, updated: nat, removed: nat)
    requires KeepsOld(r0, mid, existing, seen, updated) && Purged(mid, rows, existing, seen, removed)
    ensures Changed(r0, rows) == Changed(r0, mid)
  {
    OldIsIn(r0, mid, existing, seen, updated);
    hide Mine;
    assert forall id :: id in Changed(r0, mid) ==> id in rows && rows[id] == mid[id];
  }

  lemma GivenMore(id: Option<string>, fp: string, done: seq<Fetched>, f: Fetched)
    requires Given(id, fp, done)
    ensures Given(id, fp, done + [f])
  {
    var j :| 0 <= j < |done| && done[j].fingerprint == fp && done[j].keyId != "" && id == Some(done[j].keyId);
    assert (done + [f])[j] == done[j];
  }

  lemma DiffersMore(stored: Row, done: seq<Fetched>, f: Fetched, k: KeyType)
    requires Differs(stored, done, k)
    ensures Differs(stored, done + [f], k)
  {
    var i :| 0 <= i < |done| && done[i].fingerprint == stored.fingerprint && !Agrees(k, stored, done[i]);
    assert (done + [f])[i] == done[i];
  }

  lemma DiffersNow(stored: Row, done: seq<Fetched>, f: Fetched, k: KeyType)
    requires f.fingerprint == stored.fingerprint && !Agrees(k, stored, f)
    ensures Differs(stored, done + [f], k)
  {
    assert (done + [f])[|done|] == f;
  }

  lemma GroundedStart(existing: Existing, r0: Rows, k: KeyType)
    requires Exact(existing, r0)
    ensures Grounded(existing, r0, [], k)
  {}

  lemma GroundedMore(existing: Existing, r0: Rows, done: seq<Fetched>, f: Fetched, k: KeyType)
    requires Grounded(existing, r0, done, k)
    ensures Grounded(existing, r0, done + [f], k)
  {
    hide Differs;
    forall fp | fp in existing && existing[fp].id in r0 && existing[fp].row != r0[existing[fp].id]
      ensures Differs(r0[existing[fp].id], done + [f], k)
    {
      DiffersMore(r0[existing[fp].id], done, f, k);
    }
  }

  /** What needs an update differs from what was stored, by this key or an earlier one. */
  lemma GroundedUpdate(existing: Existing, r0: Rows, done: seq<Fetched>, f: Fetched, snap: Snap, k: KeyType)
    requires Grounded(existing, r0, done, k) && f.fingerprint in existing
    requires var old' := existing[f.fingerprint];
      && old'.id in r0 && r0[old'.id].fingerprint == f.fingerprint
      && snap == (if NeedsUpdate(k, old'.row, f) then Snap(old'.id, Refreshed(k, old'.row, f)) else old')
    ensures Grounded(existing[f.fingerprint := snap], r0, done + [f], k)
    ensures NeedsUpdate(k, existing[f.fingerprint].row, f) ==>
      Differs(r0[existing[f.fingerprint].id], done + [f], k)
  {
    var old' := existing[f.fingerprint];
    NeedsExactly(k, old'.row, f);
    GroundedMore(existing, r0, done, f, k);
    hide Differs, Refreshed, NeedsUpdate, Agrees;
    if NeedsUpdate(k, old'.row, f) && old'.row == r0[old'.id] {
      DiffersNow(r0[old'.id], done, f, k);
    }
  }

  lemma ChangedMore(stored: Row, row: Row, done: seq<Fetched>, f: Fetched, k: KeyType)
    requires ChangedFrom(stored, row, done, k)
    ensures ChangedFrom(stored, row, done + [f], k)
  {
    var i :| 0 <= i < |done| && WrittenFrom(stored, row, done[i], done, k);
    if Given(row.providerKeyId, stored.fingerprint, done) {
      GivenMore(row.providerKeyId, stored.fingerprint, done, f);
    }
    DiffersMore(stored, done, f, k);
    hide Given, Differs, Carries;
    assert WrittenFrom(stored, row, (done + [f])[i], done + [f], k);
  }

  lemma AddedMore(row: Row, done: seq<Fetched>, f: Fetched, source: nat, k: KeyType)
    requires AddedFrom(row, done, source, k)
    ensures AddedFrom(row, done + [f], source, k)
  {
    var i :| 0 <= i < |done| && IsNewRow(row, source, k, done[i]);
    assert IsNewRow(row, source, k, (done + [f])[i]);
  }

  lemma ContentsMore(r0: Rows, rows: Rows, done: seq<Fetched>, f: Fetched, source: nat, k: KeyType)
    requires Contents(r0, rows, done, source, k)
    ensures Contents(r0, rows, done + [f], source, k)
  {
    hide AddedFrom, ChangedFrom;
    forall id | id in rows && id !in r0
      ensures AddedFrom(rows[id], done + [f], source, k)
    {
      AddedMore(rows[id], done, f, source, k);
    }
    forall id | id in rows && id in r0 && rows[id] != r0[id]
      ensures ChangedFrom(r0[id], rows[id], done + [f], k)
    {
      ChangedMore(r0[id], rows[id], done, f, k);
    }
  }

  lemma ContentsCreate(r0: Rows, rows: Rows, done: seq<Fetched>, f: Fetched, id: nat, source: nat, k: KeyType)
    requires Contents(r0, rows, done, source, k) && id !in rows && id !in r0
    ensures Contents(r0, rows[id := NewRow(source, k, f)], done + [f], source, k)
  {
    ContentsMore(r0, rows, done, f, source, k);
    var i := |done|;
    assert (done + [f])[i] == f;
    assert AddedFrom(NewRow(source, k, f), done + [f], source, k);
    hide AddedFrom, ChangedFrom, NewRow;
  }

  /** A row just written, from itself or from what an earlier duplicate left of it. */
  lemma WriteRow(stored: Row, row: Row, snap: Row, done: seq<Fetched>, f: Fetched, k: KeyType)
    requires row == stored || ChangedFrom(stored, row, done, k)
    requires snap.fingerprint == stored.fingerprint == f.fingerprint && Differs(stored, done + [f], k)
    ensures ChangedFrom(stored, Updated(row, Refreshed(k, snap, f)), done + [f], k)
  {
    var more, row' := done + [f], Updated(row, Refreshed(k, snap, f));
    assert more[|done|] == f;
    if row != stored {
      var i :| 0 <= i < |done| && WrittenFrom(stored, row, done[i], done, k);
      if Given(row.providerKeyId, stored.fingerprint, done) {
        GivenMore(row.providerKeyId, stored.fingerprint, done, f);
      }
    }
    if f.keyId != "" {
      assert Given(row'.providerKeyId, stored.fingerprint, more);
    }
    assert WrittenFrom(stored, row', more[|done|], more, k);
  }

  lemma ContentsUpdate(r0: Rows, rows: Rows, done: seq<Fetched>, f: Fetched, id: nat, snap: Row, source: nat,
      k: KeyType)
    requires Contents(r0, rows, done, source, k) && id in rows && id in r0
    requires snap.fingerprint == r0[id].fingerprint == f.fingerprint && Differs(r0[id], done + [f], k)
    ensures Contents(r0, rows[id := Updated(rows[id], Refreshed(k, snap, f))], done + [f], source, k)
  {
    ContentsMore(r0, rows, done, f, source, k);
    WriteRow(r0[id], rows[id], snap, done, f, k);
    hide AddedFrom, ChangedFrom, Updated, Refreshed;
  }

  /** Listed rows are all from before. */
  lemma MapIsOld(r0: Rows, rows: Rows, existing: Existing, seen: set<string>, updated: nat, fp: string, source: nat,
      k: KeyType)
    requires Tracks(existing, rows, source, k) && KeepsOld(r0, rows, existing, seen, updated)
    requires AddsNew(r0, rows, existing, seen, source, k) && fp in existing
    ensures existing[fp].id in r0 && r0[existing[fp].id].fingerprint == fp
  {}

  lemma NoContents(rows: Rows, source: nat, k: KeyType)
    ensures Contents(rows, rows, [], source, k)
  {}

  lemma PurgeContents(r0: Rows, mid: Rows, rows: Rows, existing: Existing, seen: set<string>, removed: nat,
      done: seq<Fetched>, source: nat, k: KeyType)
    requires Contents(r0, mid, done, source, k) && Purged(mid, rows, existing, seen, removed)
    ensures Contents(r0, rows, done, source, k)
  {
    hide AddedFrom, ChangedFrom, Mine;
  }

  lemma UpdateContents(r0: Rows, rows: Rows, rows': Rows, fetched: seq<Fetched>, i: nat, existing: Existing, c: Counts,
      snap: Snap, changed: bool, source: nat, k: KeyType)
    requires i < |fetched| && fetched[i].fingerprint in existing
    requires Midway(r0, rows, existing, Seen(fetched[..i]), c, source, k)
    requires Contents(r0, rows, fetched[..i], source, k)
    requires var f := fetched[i]; var old' := existing[f.fingerprint];
      && snap == (if NeedsUpdate(k, old'.row, f) then Snap(old'.id, Refreshed(k, old'.row, f)) else old')
      && (changed ==> NeedsUpdate(k, old'.row, f))
    requires Grounded(existing, r0, fetched[..i], k) && snap.id in rows
    requires rows' == if changed then rows[snap.id := Updated(rows[snap.id], snap.row)] else rows
    ensures Contents(r0, rows', fetched[..i + 1], source, k)
    ensures Grounded(existing[fetched[i].fingerprint := snap], r0, fetched[..i + 1], k)
  {
    hide *;
    var f, before := fetched[i], fetched[..i];
    assert fetched[..i + 1] == before + [f];
    MidwayIs(r0, rows, existing, Seen(before), c, source, k);
    MapIsOld(r0, rows, existing, Seen(before), c.updated, f.fingerprint, source, k);
    GroundedUpdate(existing, r0, before, f, snap, k);
    if changed {
      TracksKey(existing, rows, f.fingerprint, source, k);
      ContentsUpdate(r0, rows, before, f, snap.id, existing[f.fingerprint].row, source, k);
    } else {
      ContentsMore(r0, rows, before, f, source, k);
    }
  }

  lemma CreateContents(r0: Rows, rows: Rows, rows': Rows, fetched: seq<Fetched>, i: nat, existing: Existing, c: Counts,
      id: Option<nat>, source: nat, k: KeyType)
    requires i < |fetched| && Midway(r0, rows, existing, Seen(fetched[..i]), c, source, k)
    requires Contents(r0, rows, fetched[..i], source, k) && (id.Some? ==> id.value !in rows)
    requires rows' == if id.Some? then rows[id.value := NewRow(source, k, fetched[i])] else rows
    requires Grounded(existing, r0, fetched[..i], k)
    ensures Contents(r0, rows', fetched[..i + 1], source, k)
    ensures Grounded(existing, r0, fetched[..i + 1], k)
  {
    hide *;
    var f, before := fetched[i], fetched[..i];
    assert fetched[..i + 1] == before + [f];
    GroundedMore(existing, r0, before, f, k);
    if id.Some? {
      MidwayIs(r0, rows, existing, Seen(before), c, source, k);
      OldIsIn(r0, rows, existing, Seen(before), c.updated);
      assert id.value !in r0.Keys;
      ContentsCreate(r0, rows, before, f, id.value, source, k);
    } else {
      ContentsMore(r0, rows, before, f, source, k);
    }
  }

  lemma PlusOne(d: Counts, c: Counts)
    ensures Plus(Plus(d, c), Counts(1, 0, 0)) == Plus(d, c.(added := c.added + 1))
    ensures Plus(Plus(d, c), Counts(0, 1, 0)) == Plus(d, c.(updated := c.updated + 1))
    ensures Plus(Plus(d, c), Counts(0, 0, 1)) == Plus(d, c.(removed := c.removed + 1))
  {}

  lemma PlusRemoved(d: Counts, c: Counts, removed: nat)
    ensures c.removed == 0 ==> Plus(Plus(d, c), Counts(0, 0, removed)) == Plus(d, c.(removed := removed))
    ensures Plus(d, NOTHING) == d
  {}

  /** Where the pass over the fetched keys stands after the first i of them; up says that
      nothing has failed so far. */
  predicate Stage(r0: Rows, rows: Rows, up: bool, fetched: seq<Fetched>, i: nat, existing: Existing, c: Counts,
      source: nat, k: KeyType)
    requires i <= |fetched|
  {
    && Midway(r0, rows, existing, Seen(fetched[..i]), c, source, k)
    && (up ==> Faithful(rows, existing, fetched[..i], source, k))
    && (up && DistinctKeys(fetched) && AllSeen(existing, r0, source, k) ==> AllUpToDate(rows, fetched[..i], source, k))
    && (Settled(r0, fetched, source, k) ==> rows == r0 && c == NOTHING && Exact(existing, r0))
    && (DistinctKeys(fetched) ==> Tallied(r0, rows, existing, Seen(fetched[..i]), c.updated))
  }

  lemma WorseStage(r0: Rows, rows: Rows, fetched: seq<Fetched>, i: nat, existing: Existing, c: Counts,
      source: nat, k: KeyType)
    requires i <= |fetched| && Stage(r0, rows, true, fetched, i, existing, c, source, k)
    ensures Stage(r0, rows, false, fetched, i, existing, c, source, k)
  {
    hide Midway, Faithful, AllUpToDate, Settled, Exact, Seen, DistinctKeys, AllSeen, Tallied;
  }

  lemma SettledUpdate(r0: Rows, existing: Existing, fetched: seq<Fetched>, i: nat, snap: Snap, source: nat, k: KeyType)
    requires Settled(r0, fetched, source, k) && i < |fetched| && fetched[i].fingerprint in existing
    requires Tracks(existing, r0, source, k) && Exact(existing, r0)
    requires var f := fetched[i]; var old' := existing[f.fingerprint];
      snap == (if NeedsUpdate(k, old'.row, f) then Snap(old'.id, Refreshed(k, old'.row, f)) else old')
    ensures !NeedsUpdate(k, existing[fetched[i].fingerprint].row, fetched[i])
    ensures Exact(existing[fetched[i].fingerprint := snap], r0)
  {
    TracksKey(existing, r0, fetched[i].fingerprint, source, k);
    KeyInMap(existing, r0, fetched[i].fingerprint, source, k);
    SettledKey(r0, existing, fetched, i, source, k);
    hide Settled, NeedsUpdate, Tracks;
  }

  lemma KeyInMap(existing: Existing, rows: Rows, fp: string, source: nat, k: KeyType)
    requires Tracks(existing, rows, source, k) && fp in existing
    ensures fp != ""
  {}

  lemma UpdatePass(r0: Rows, rows: Rows, rows': Rows, up: bool, fetched: seq<Fetched>, i: nat,
      existing: Existing, c: Counts, snap: Snap, changed: bool, source: nat, k: KeyType)
    requires i < |fetched| && fetched[i].fingerprint in existing && OnePerSource(rows)
    requires Stage(r0, rows, up, fetched, i, existing, c, source, k)
    requires var f := fetched[i]; var old' := existing[f.fingerprint];
      && snap == (if NeedsUpdate(k, old'.row, f) then Snap(old'.id, Refreshed(k, old'.row, f)) else old')
      && (changed ==> NeedsUpdate(k, old'.row, f)) && (up ==> changed == NeedsUpdate(k, old'.row, f))
    requires snap.id in rows
    requires rows' == if changed then rows[snap.id := Updated(rows[snap.id], snap.row)] else rows
    ensures Stage(r0, rows', up, fetched, i + 1, existing[fetched[i].fingerprint := snap],
      if changed then c.(updated := c.updated + 1) else c, source, k)
    ensures AllSeen(existing, r0, source, k) <==> AllSeen(existing[fetched[i].fingerprint := snap], r0, source, k)
  {
    hide *;
    var f := fetched[i];
    var fp, before := f.fingerprint, fetched[..i];
    StageIs(r0, rows, up, fetched, i, existing, c, source, k);
    MidwayIs(r0, rows, existing, Seen(before), c, source, k);
    TracksKey(existing, rows, fp, source, k);
    KeyInMap(existing, rows, fp, source, k);
    RefreshedKey(k, existing[fp].row, f);
    SeenSnoc(fetched, i);
    SameIds(existing, fp, snap, r0, source, k);
    UpdateStep(r0, rows, rows', existing, Seen(before), c, snap, changed, source, k);
    if DistinctKeys(fetched) {
      TallyUpdate(r0, rows, rows', existing, Seen(before), c.updated, f, snap, changed, source, k);
    }
    if Settled(r0, fetched, source, k) {
      SettledUpdate(r0, existing, fetched, i, snap, source, k);
    }
    if up {
      UpdateFaithful(rows, rows', existing, before, fetched[..i + 1], f, snap, changed, source, k);
      FaithfulIs(rows, existing, before, source, k);
      if DistinctKeys(fetched) && AllSeen(existing, r0, source, k) {
        UpdateUpToDate(rows, rows', existing, f, snap, changed, source, k);
        StepUpToDate(rows, rows', fetched, i, source, k);
      }
    }
    StageOf(r0, rows', up, fetched, i + 1, existing[fp := snap],
      if changed then c.(updated := c.updated + 1) else c, source, k);
  }

  lemma StageIs(r0: Rows, rows: Rows, up: bool, fetched: seq<Fetched>, i: nat, existing: Existing, c: Counts,
      source: nat, k: KeyType)
    requires i <= |fetched| && Stage(r0, rows, up, fetched, i, existing, c, source, k)
    ensures Midway(r0, rows, existing, Seen(fetched[..i]), c, source, k)
    ensures up ==> Faithful(rows, existing, fetched[..i], source, k)
    ensures up && DistinctKeys(fetched) && AllSeen(existing, r0, source, k) ==>
      AllUpToDate(rows, fetched[..i], source, k)
    ensures Settled(r0, fetched, source, k) ==> rows == r0 && c == NOTHING && Exact(existing, r0)
    ensures DistinctKeys(fetched) ==> Tallied(r0, rows, existing, Seen(fetched[..i]), c.updated)
  {}

  lemma StageOf(r0: Rows, rows: Rows, up: bool, fetched: seq<Fetched>, i: nat, existing: Existing, c: Counts,
      source: nat, k: KeyType)
    requires i <= |fetched| && Midway(r0, rows, existing, Seen(fetched[..i]), c, source, k)
    requires up ==> Faithful(rows, existing, fetched[..i], source, k)
    requires up && DistinctKeys(fetched) && AllSeen(existing, r0, source, k) ==>
      AllUpToDate(rows, fetched[..i], source, k)
    requires Settled(r0, fetched, source, k) ==> rows == r0 && c == NOTHING && Exact(existing, r0)
    requires DistinctKeys(fetched) ==> Tallied(r0, rows, existing, Seen(fetched[..i]), c.updated)
    ensures Stage(r0, rows, up, fetched, i, existing, c, source, k)
  {}

  lemma CreatePass(r0: Rows, rows: Rows, rows': Rows, up: bool, fetched: seq<Fetched>, i: nat,
      existing: Existing, c: Counts, id: Option<nat>, source: nat, k: KeyType)
    requires i < |fetched| && fetched[i].fingerprint != "" && fetched[i].fingerprint !in existing
    requires Stage(r0, rows, up, fetched, i, existing, c, source, k)
    requires id.Some? ==> id.value !in rows && !Claimed(rows, source, fetched[i].fingerprint)
    requires up && id.None? ==> Claimed(rows, source, fetched[i].fingerprint)
    requires rows' == if id.Some? then rows[id.value := NewRow(source, k, fetched[i])] else rows
    ensures Stage(r0, rows', up, fetched, i + 1, existing, if id.Some? then c.(added := c.added + 1) else c, source, k)
  {
    hide *;
    var f := fetched[i];
    var before := fetched[..i];
    StageIs(r0, rows, up, fetched, i, existing, c, source, k);
    MidwayIs(r0, rows, existing, Seen(before), c, source, k);
    SeenSnoc(fetched, i);
    OldIsIn(r0, rows, existing, Seen(before), c.updated);
    CreateStep(r0, rows, rows', existing, Seen(before), c, f, id, source, k);
    if DistinctKeys(fetched) {
      TallyCreate(r0, rows, rows', existing, Seen(before), c.updated, f.fingerprint, id, NewRow(source, k, f));
    }
    if Settled(r0, fetched, source, k) {
      SettledKey(r0, existing, fetched, i, source, k);
    }
    if up {
      CreateFaithful(rows, rows', existing, before, fetched[..i + 1], f, id, source, k);
      if DistinctKeys(fetched) && AllSeen(existing, r0, source, k) {
        CreateCurrent(r0, rows, rows', fetched, i, existing, c, id, source, k);
      }
    }
    StageOf(r0, rows', up, fetched, i + 1, existing, if id.Some? then c.(added := c.added + 1) else c, source, k);
  }

  lemma CreateCurrent(r0: Rows, rows: Rows, rows': Rows, fetched: seq<Fetched>, i: nat, existing: Existing,
      c: Counts, id: Option<nat>, source: nat, k: KeyType)
    requires i < |fetched| && fetched[i].fingerprint != "" && fetched[i].fingerprint !in existing
    requires Midway(r0, rows, existing, Seen(fetched[..i]), c, source, k)
    requires DistinctKeys(fetched) && AllSeen(existing, r0, source, k) && AllUpToDate(rows, fetched[..i], source, k)
    requires id.Some? ==> id.value !in rows && !Claimed(rows, source, fetched[i].fingerprint)
    requires rows' == if id.Some? then rows[id.value := NewRow(source, k, fetched[i])] else rows
    ensures AllUpToDate(rows', fetched[..i + 1], source, k)
  {
    hide *;
    if id.Some? {
      CreateUpToDate(rows, rows', fetched[i], id.value, source, k);
    } else {
      RefusedIsElsewhere(r0, rows, existing, fetched, i, c, source, k);
    }
    StepUpToDate(rows, rows', fetched, i, source, k);
  }

  class Scraper {
    const keys: KeyStore

    constructor (keys: KeyStore)
      ensures this.keys == keys
    {
      this.keys := keys;
    }

    /** Refresh a stored key from the provider's payload; the snapshot changes even when the
        write fails. */
    method UpdateExistingKey(snap: Snap, f: Fetched, k: KeyType) returns (snap': Snap, changed: bool)
      requires keys.Valid()
      requires snap.id in keys.rows && keys.rows[snap.id].fingerprint == snap.row.fingerprint
      modifies keys
      ensures keys.Valid() && keys.next >= old(keys.next) && keys.calls >= old(keys.calls)
      ensures snap' == if NeedsUpdate(k, snap.row, f) then Snap(snap.id, Refreshed(k, snap.row, f)) else snap
      ensures changed ==> NeedsUpdate(k, snap.row, f)
      ensures if Agrees(k, snap.row, f) then snap' == snap && !changed && keys.rows == old(keys.rows)
        else snap'.id == snap.id && snap'.row.fingerprint == snap.row.fingerprint && Carries(k, snap'.row, f)
      ensures NeedsUpdate(k, snap.row, f) && !changed ==> !keys.UpSince(old(keys.calls))
      ensures keys.done == if changed then Plus(old(keys.done), Counts(0, 1, 0)) else old(keys.done)
      ensures keys.rows ==
        if changed then old(keys.rows)[snap.id := Updated(old(keys.rows)[snap.id], snap'.row)] else old(keys.rows)
    {
      NeedsExactly(k, snap.row, f);
      if !NeedsUpdate(k, snap.row, f) {
        return snap, false;
      }
      snap' := Snap(snap.id, Refreshed(k, snap.row, f));
      OwnIsFree(keys.rows, snap.id);
      changed := keys.Update(snap.id, snap'.row);
      keys.UpAt(old(keys.calls), old(keys.calls));
    }

    /** Store a key the provider lists and sshark does not. */
    method CreateNewKey(source: nat, f: Fetched, k: KeyType) returns (id: Option<nat>)
      requires keys.Valid()
      modifies keys
      ensures keys.Valid() && keys.next >= old(keys.next) && keys.calls >= old(keys.calls)
      ensures id.Some? ==>
        && id.value !in old(keys.rows) && !Claimed(old(keys.rows), source, f.fingerprint)
        && keys.rows == old(keys.rows)[id.value := NewRow(source, k, f)]
        && id.value in keys.rows && IsNewRow(keys.rows[id.value], source, k, f)
      ensures keys.done == if id.Some? then Plus(old(keys.done), Counts(1, 0, 0)) else old(keys.done)
      ensures id.None? ==>
        keys.rows == old(keys.rows)
        && (keys.UpSince(old(keys.calls)) ==> Claimed(old(keys.rows), source, f.fingerprint))
    {
      id := keys.Create(NewRow(source, k, f));
      keys.UpAt(old(keys.calls), old(keys.calls));
    }

    /** The map from fingerprint to stored key; a key without one is not in it. */
    method IndexByFingerprint(ids: seq<nat>, source: nat, k: KeyType) returns (existing: Existing)
      requires keys.Valid() && Genuine(keys.rows, source, k, ids)
      ensures MapOf(existing, keys.rows, ids, source, k)
    {
      existing := map[];
      for i := 0 to |ids|
        invariant MapOf(existing, keys.rows, ids[..i], source, k)
      {
        var row := keys.rows[ids[i]];
        assert forall j :: 0 <= j < i ==> ids[..i][j] == ids[j];
        if row.fingerprint != "" {
          existing := existing[row.fingerprint := Snap(ids[i], row)];
        }
        assert forall j :: 0 <= j < i + 1 ==> ids[..i + 1][j] == ids[j];
      }
      assert ids[..|ids|] == ids;
    }

    ghost predicate Passing(r0: Rows, n0: nat, d0: Counts, fetched: seq<Fetched>, i: nat, existing: Existing, c: Counts,
        source: nat, k: KeyType)
      requires i <= |fetched|
      reads keys
    {
      && keys.Valid() && keys.calls >= n0 && keys.done == Plus(d0, c)
      && Stage(r0, keys.rows, keys.UpSince(n0), fetched, i, existing, c, source, k)
      && Contents(r0, keys.rows, fetched[..i], source, k) && Grounded(existing, r0, fetched[..i], k)
    }

    /** One fetched key found in the map. */
    method UpdateOne(ghost r0: Rows, ghost n0: nat, ghost d0: Counts, ghost fetched: seq<Fetched>, ghost i: nat,
        f: Fetched,
        existing: Existing, c: Counts, ghost source: nat, k: KeyType) returns (existing': Existing, c': Counts)
      requires i < |fetched| && f == fetched[i] && f.fingerprint in existing
      requires Passing(r0, n0, d0, fetched, i, existing, c, source, k)
      modifies keys
      ensures Passing(r0, n0, d0, fetched, i + 1, existing', c', source, k)
      ensures AllSeen(existing, r0, source, k) <==> AllSeen(existing', r0, source, k)
    {
      ghost var rows, up := keys.rows, keys.UpSince(n0);
      StageIs(r0, rows, up, fetched, i, existing, c, source, k);
      MidwayIs(r0, rows, existing, Seen(fetched[..i]), c, source, k);
      TracksKey(existing, rows, f.fingerprint, source, k);
      hide Stage, OnePerSource, NeedsUpdate, AllSeen, Updated, Refreshed, Seen, Tracks, KeepsOld, AddsNew, Midway,
        Contents, Grounded, Plus;
      if up {
        WorseStage(r0, rows, fetched, i, existing, c, source, k);
      }
      var snap, changed := UpdateExistingKey(existing[f.fingerprint], f, k);
      UpdatePass(r0, rows, keys.rows, keys.UpSince(n0), fetched, i, existing, c, snap, changed, source, k);
      PlusOne(d0, c);
      UpdateContents(r0, rows, keys.rows, fetched, i, existing, c, snap, changed, source, k);
      existing' := existing[f.fingerprint := snap];
      c' := if changed then c.(updated := c.updated + 1) else c;
    }

    /** One fetched key that is not in the map. */
    method CreateOne(ghost r0: Rows, ghost n0: nat, ghost d0: Counts, ghost fetched: seq<Fetched>, ghost i: nat,
        f: Fetched, ghost existing: Existing, c: Counts, source: nat, k: KeyType) returns (c': Counts)
      requires i < |fetched| && f == fetched[i] && f.fingerprint != "" && f.fingerprint !in existing
      requires Passing(r0, n0, d0, fetched, i, existing, c, source, k)
      modifies keys
      ensures Passing(r0, n0, d0, fetched, i + 1, existing, c', source, k)
    {
      ghost var rows, up := keys.rows, keys.UpSince(n0);
      StageIs(r0, rows, up, fetched, i, existing, c, source, k);
      hide Stage, OnePerSource, Claimed, NewRow, Contents, Midway, Seen, Plus, Grounded;
      if up {
        WorseStage(r0, rows, fetched, i, existing, c, source, k);
      }
      var id := CreateNewKey(source, f, k);
      CreatePass(r0, rows, keys.rows, keys.UpSince(n0), fetched, i, existing, c, id, source, k);
      PlusOne(d0, c);
      CreateContents(r0, rows, keys.rows, fetched, i, existing, c, id, source, k);
      c' := if id.Some? then c.(added := c.added + 1) else c;
    }

    /** Delete what the map holds and the provider no longer lists, in any order. */
    method DeleteStale(existing: Existing, seen: set<string>, ghost source: nat, ghost k: KeyType)
      returns (removed: nat)
      requires keys.Valid() && Tracks(existing, keys.rows, source, k)
      modifies keys
      ensures keys.Valid() && keys.calls >= old(keys.calls)
      ensures Purged(old(keys.rows), keys.rows, existing, seen, removed)
      ensures keys.done == Plus(old(keys.done), Counts(0, 0, removed))
      ensures keys.UpSince(old(keys.calls)) ==>
        forall fp :: fp in existing && fp !in seen ==> existing[fp].id !in keys.rows
    {
      removed := 0;
      var left := existing.Keys;
      ghost var rows, n0, d0 := keys.rows, keys.calls, keys.done;
      hide *;
      PurgeBegins(existing, seen, source, k);
      while left != {}
        invariant Purging(rows, n0, d0, existing, seen, left, removed)
        decreases |left|
      {
        var fp :| fp in left;
        removed := DeleteOne(rows, n0, d0, existing, seen, left, fp, removed, source, k);
        left := left - {fp};
      }
      PurgeEnds(rows, n0, d0, existing, seen, removed);
    }

    method DeleteOne(ghost rows: Rows, ghost n0: nat, ghost d0: Counts, existing: Existing, seen: set<string>,
        ghost left: set<string>, fp: string, removed: nat, ghost source: nat, ghost k: KeyType) returns (removed': nat)
      requires Tracks(existing, rows, source, k) && fp in left
      requires Purging(rows, n0, d0, existing, seen, left, removed)
      modifies keys
      ensures Purging(rows, n0, d0, existing, seen, left - {fp}, removed')
    {
      ghost var before, up := keys.rows, keys.UpSince(n0);
      PurgeStep(rows, before, existing, seen, left, removed, fp, source, k);
      PlusOne(d0, Counts(0, 0, removed));
      hide Purged, OnePerSource, Tracks, Remaining, NoneLeft, Plus;
      if fp in seen {
        return removed;
      }
      removed' := DeleteKey(existing[fp].id, removed);
      ghost var after, up' := keys.rows, keys.UpSince(n0);
      assert up' ==> up && removed' == removed + 1;
      assert after == if removed' == removed then before else before - {existing[fp].id};
      assert Purged(rows, after, existing, seen, removed') && Remaining(existing, left - {fp}, after);
      assert up' ==> NoneLeft(existing, seen, left - {fp}, after);
    }

    /** One deletion; a failed one is not counted. */
    method DeleteKey(id: nat, removed: nat) returns (removed': nat)
      requires keys.Valid() && id in keys.rows
      modifies keys
      ensures keys.Valid() && keys.calls == old(keys.calls) + 1
      ensures removed' == removed || removed' == removed + 1
      ensures keys.rows == if removed' == removed then old(keys.rows) else old(keys.rows) - {id}
      ensures keys.done == if removed' == removed then old(keys.done) else Plus(old(keys.done), Counts(0, 0, 1))
      ensures keys.UpSince(old(keys.calls)) ==> removed' == removed + 1
    {
      hide OnePerSource, Plus;
      var ok := keys.Delete(id);
      keys.UpAt(old(keys.calls), old(keys.calls));
      removed' := if ok then removed + 1 else removed;
    }

    /** Where the deletions stand with some of the map's keys still to look at. */
    ghost predicate Purging(rows: Rows, n0: nat, d0: Counts, existing: Existing, seen: set<string>,
        left: set<string>, removed: nat)
      reads keys
    {
      && keys.Valid() && keys.calls >= n0 && keys.done == Plus(d0, Counts(0, 0, removed))
      && Purged(rows, keys.rows, existing, seen, removed) && Remaining(existing, left, keys.rows)
      && (keys.UpSince(n0) ==> NoneLeft(existing, seen, left, keys.rows))
    }

    lemma PurgeBegins(existing: Existing, seen: set<string>, source: nat, k: KeyType)
      requires keys.Valid() && Tracks(existing, keys.rows, source, k)
      ensures Purging(keys.rows, keys.calls, keys.done, existing, seen, existing.Keys, 0)
    {
      hide OnePerSource;
    }

    lemma PurgeEnds(rows: Rows, n0: nat, d0: Counts, existing: Existing, seen: set<string>, removed: nat)
      requires Purging(rows, n0, d0, existing, seen, {}, removed)
      ensures keys.Valid() && keys.calls >= n0 && keys.done == Plus(d0, Counts(0, 0, removed))
      ensures Purged(rows, keys.rows, existing, seen, removed)
      ensures keys.UpSince(n0) ==> forall fp :: fp in existing && fp !in seen ==> existing[fp].id !in keys.rows
    {
      hide Purged, OnePerSource;
    }

    /** The stored keys by fingerprint; few says that the listing missed none. */
    method ListExisting(source: nat, k: KeyType) returns (existing: Option<Existing>, ghost few: bool)
      requires keys.Valid()
      modifies keys
      ensures keys.Valid() && keys.rows == old(keys.rows) && keys.done == old(keys.done)
      ensures keys.calls == old(keys.calls) + 1
      ensures existing.None? <==> keys.down(old(keys.calls))
      ensures existing.Some? ==>
        && Midway(keys.rows, keys.rows, existing.value, {}, NOTHING, source, k)
        && Exact(existing.value, keys.rows) && Faithful(keys.rows, existing.value, [], source, k)
        && (few ==> AllSeen(existing.value, keys.rows, source, k))
      ensures few <==> |Matching(keys.rows, source, k)| <= 1000 && keys.cut(old(keys.calls)).None?
    {
      ghost var n := keys.calls;
      few := |Matching(keys.rows, source, k)| <= SEARCH_LIMIT && keys.cut(n).None?;
      var found := keys.Search(source, k, SEARCH_LIMIT);
      if found.None? {
        return None, few;
      }
      ghost var all :| Listed(keys.rows, source, k, SEARCH_LIMIT, all) && found.value == FirstOf(all, keys.cut(n));
      FirstIsGenuine(keys.rows, source, k, SEARCH_LIMIT, all, keys.cut(n));
      hide Listed, Matching, FirstOf, Genuine, Midway, Exact, Faithful, AllSeen, OnePerSource, MapOf;
      var index := IndexByFingerprint(found.value, source, k);
      EmptyMeans(index, keys.rows, found.value, source, k);
      if few {
        AllListed(keys.rows, source, k, SEARCH_LIMIT, found.value);
      }
      existing := Some(index);
    }

    /** Make the stored keys of one source and type the fetched ones. */
    method SyncKeys(source: nat, fetched: seq<Fetched>, k: KeyType) returns (c: Counts)
      requires keys.Valid()
      modifies keys
      ensures keys.Valid() && keys.calls > old(keys.calls)
      ensures Reconciles(old(keys.rows), keys.rows, fetched, c, source, k)
      ensures keys.UpSince(old(keys.calls)) && |Matching(old(keys.rows), source, k)| <= 1000 ==>
        && Matches(old(keys.rows), keys.rows, fetched, source, k)
        && (DistinctKeys(fetched) ==> Settled(keys.rows, fetched, source, k))
      ensures (&& keys.UpSince(old(keys.calls)) && |Matching(old(keys.rows), source, k)| <= 1000
               && DistinctKeys(fetched)) ==>
        Current(keys.rows, fetched, source, k)
      ensures AgreedStay(old(keys.rows), keys.rows, fetched, k)
      ensures Settled(old(keys.rows), fetched, source, k) ==> keys.rows == old(keys.rows) && c == NOTHING
      ensures DistinctKeys(fetched) ==> c.updated == |Changed(old(keys.rows), keys.rows)|
      ensures keys.done == Plus(old(keys.done), c)
    {
      ghost var r0, n0 := keys.rows, keys.calls;
      var existing, few := ListExisting(source, k);
      keys.UpAt(n0, n0);
      if existing.None? {
        NothingDone(r0, fetched, source, k);
        ReconciledStay(r0, r0, fetched, NOTHING, source, k);
        assert Changed(r0, r0) == {};
        return NOTHING;
      }
      ghost var n1 := keys.calls;
      var existing', seen, c' := ApplyFetched(existing.value, fetched, source, k);
      ghost var mid, n2 := keys.rows, keys.calls;
      MidwayIs(r0, mid, existing', Seen(fetched), c', source, k);
      hide Midway, Tracks, AllSeen, Purged, Faithful, Seen, Settled, AllUpToDate, DistinctKeys, OnePerSource, Exact,
        MapOf, Reconciles, Matches, Listed, Matching, KeepsOld, AddsNew, Changed, Contents, Plus, Current, AgreedStay;
      var removed := DeleteStale(existing', seen, source, k);
      TallyPurge(r0, mid, keys.rows, existing', seen, c'.updated, removed);
      Concludes(r0, mid, keys.rows, existing', fetched, c', removed, few, keys.UpSince(n0), source, k);
      PlusRemoved(old(keys.done), c', removed);
      c := c'.(removed := removed);
      ReconciledStay(r0, keys.rows, fetched, c, source, k);
      if Settled(keys.rows, fetched, source, k) {
        SettledIsCurrent(keys.rows, fetched, source, k);
      }
    }

    /** The pass over the fetched keys. */
    method ApplyFetched(existing: Existing, fetched: seq<Fetched>, source: nat, k: KeyType)
      returns (existing': Existing, seen: set<string>, c: Counts)
      requires keys.Valid() && Midway(keys.rows, keys.rows, existing, {}, NOTHING, source, k)
      requires Exact(existing, keys.rows) && Faithful(keys.rows, existing, [], source, k)
      modifies keys
      ensures keys.Valid() && keys.calls >= old(keys.calls) && seen == Seen(fetched)
      ensures Midway(old(keys.rows), keys.rows, existing', seen, c, source, k)
      ensures AllSeen(existing, old(keys.rows), source, k) <==> AllSeen(existing', old(keys.rows), source, k)
      ensures keys.UpSince(old(keys.calls)) ==>
        && Faithful(keys.rows, existing', fetched, source, k)
        && (DistinctKeys(fetched) && AllSeen(existing', old(keys.rows), source, k) ==>
            AllUpToDate(keys.rows, fetched, source, k))
      ensures Settled(old(keys.rows), fetched, source, k) ==> keys.rows == old(keys.rows) && c == NOTHING
      ensures DistinctKeys(fetched) ==> Tallied(old(keys.rows), keys.rows, existing', seen, c.updated)
      ensures Contents(old(keys.rows), keys.rows, fetched, source, k)
      ensures keys.done == Plus(old(keys.done), c)
    {
      ghost var r0, n0, d0 := keys.rows, keys.calls, keys.done;
      existing', seen, c := existing, {}, NOTHING;
      hide *;
      Begins(fetched, existing, source, k);
      for i := 0 to |fetched|
        invariant Applying(r0, n0, d0, fetched, i, existing, existing', seen, c, source, k)
      {
        existing', seen, c := ApplyOne(r0, n0, d0, fetched, i, existing, existing', seen, c, source, k);
      }
      Ends(r0, n0, d0, fetched, existing, existing', seen, c, source, k);
    }

    /** The pass after the first i keys, and what the method knows of it besides. */
    ghost predicate Applying(r0: Rows, n0: nat, d0: Counts, fetched: seq<Fetched>, i: nat, start: Existing,
        existing: Existing, seen: set<string>, c: Counts, source: nat, k: KeyType)
      requires i <= |fetched|
      reads keys
    {
      && Passing(r0, n0, d0, fetched, i, existing, c, source, k) && seen == Seen(fetched[..i])
      && (AllSeen(start, r0, source, k) <==> AllSeen(existing, r0, source, k))
    }

    /** One fetched key; one without a fingerprint is passed over. */
    method ApplyOne(ghost r0: Rows, ghost n0: nat, ghost d0: Counts, fetched: seq<Fetched>, i: nat,
        ghost start: Existing, existing: Existing, seen: set<string>, c: Counts, source: nat, k: KeyType)
      returns (existing': Existing, seen': set<string>, c': Counts)
      requires i < |fetched| && Applying(r0, n0, d0, fetched, i, start, existing, seen, c, source, k)
      modifies keys
      ensures Applying(r0, n0, d0, fetched, i + 1, start, existing', seen', c', source, k)
    {
      hide Passing, AllSeen, Seen;
      var f := fetched[i];
      existing', seen', c' := existing, seen, c;
      NextSeen(fetched, i);
      if f.fingerprint == "" {
        Skip(r0, n0, d0, fetched, i, existing, c, source, k);
        return;
      }
      seen' := seen + {f.fingerprint};
      if f.fingerprint in existing {
        existing', c' := UpdateOne(r0, n0, d0, fetched, i, f, existing, c, source, k);
      } else {
        c' := CreateOne(r0, n0, d0, fetched, i, f, existing, c, source, k);
      }
    }

    lemma Begins(fetched: seq<Fetched>, existing: Existing, source: nat, k: KeyType)
      requires keys.Valid() && Midway(keys.rows, keys.rows, existing, {}, NOTHING, source, k)
      requires Exact(existing, keys.rows) && Faithful(keys.rows, existing, [], source, k)
      ensures Applying(keys.rows, keys.calls, keys.done, fetched, 0, existing, existing, {}, NOTHING, source, k)
    {
      assert fetched[..0] == [];
      FirstStage(keys.rows, fetched, existing, source, k);
      NoKeys(keys.rows, source, k);
      NoContents(keys.rows, source, k);
      GroundedStart(existing, keys.rows, k);
      hide Stage, OnePerSource, Contents, Seen, Grounded;
    }

    lemma Ends(r0: Rows, n0: nat, d0: Counts, fetched: seq<Fetched>, start: Existing, existing: Existing,
        seen: set<string>, c: Counts, source: nat, k: KeyType)
      requires Applying(r0, n0, d0, fetched, |fetched|, start, existing, seen, c, source, k)
      ensures keys.Valid() && keys.calls >= n0 && keys.done == Plus(d0, c) && seen == Seen(fetched)
      ensures AllSeen(start, r0, source, k) <==> AllSeen(existing, r0, source, k)
      ensures Midway(r0, keys.rows, existing, seen, c, source, k)
      ensures keys.UpSince(n0) ==>
        && Faithful(keys.rows, existing, fetched, source, k)
        && (DistinctKeys(fetched) && AllSeen(existing, r0, source, k) ==> AllUpToDate(keys.rows, fetched, source, k))
      ensures Settled(r0, fetched, source, k) ==> keys.rows == r0 && c == NOTHING
      ensures DistinctKeys(fetched) ==> Tallied(r0, keys.rows, existing, seen, c.updated)
      ensures Contents(r0, keys.rows, fetched, source, k)
    {
      assert fetched[..|fetched|] == fetched;
      LastStage(r0, keys.rows, keys.UpSince(n0), fetched, existing, c, source, k);
      hide Stage, Midway, Faithful, Settled, AllUpToDate, AllSeen, DistinctKeys, Tallied, Contents, OnePerSource, Seen,
        Grounded;
    }

    lemma Skip(r0: Rows, n0: nat, d0: Counts, fetched: seq<Fetched>, i: nat, existing: Existing, c: Counts,
        source: nat, k: KeyType)
      requires i < |fetched| && fetched[i].fingerprint == "" && Passing(r0, n0, d0, fetched, i, existing, c, source, k)
      ensures Passing(r0, n0, d0, fetched, i + 1, existing, c, source, k)
    {
      hide Stage, Contents, OnePerSource, Grounded;
      assert fetched[..i + 1] == fetched[..i] + [fetched[i]];
      SkipStage(r0, keys.rows, keys.UpSince(n0), fetched, i, existing, c, source, k);
      ContentsMore(r0, keys.rows, fetched[..i], fetched[i], source, k);
      GroundedMore(existing, r0, fetched[..i], fetched[i], k);
    }
  }

  lemma SkipStage(r0: Rows, rows: Rows, up: bool, fetched: seq<Fetched>, i: nat, existing: Existing, c: Counts,
      source: nat, k: KeyType)
    requires i < |fetched| && fetched[i].fingerprint == ""
    requires Stage(r0, rows, up, fetched, i, existing, c, source, k)
    ensures Stage(r0, rows, up, fetched, i + 1, existing, c, source, k)
  {
    SkipKey(rows, existing, fetched, i, source, k);
    hide Midway, Faithful, Exact, Settled, AllUpToDate, Seen, AllSeen, DistinctKeys, Tallied;
  }

  lemma FirstStage(r0: Rows, fetched: seq<Fetched>, existing: Existing, source: nat, k: KeyType)
    requires Midway(r0, r0, existing, {}, NOTHING, source, k) && Exact(existing, r0)
    requires Faithful(r0, existing, [], source, k)
    ensures Stage(r0, r0, true, fetched, 0, existing, NOTHING, source, k)
  {
    NoKeys(r0, source, k);
    TallyStarts(r0, existing);
    hide Midway, Faithful, Exact, Settled, AllUpToDate, Seen, AllSeen, DistinctKeys, Tallied;
  }

  lemma LastStage(r0: Rows, rows: Rows, up: bool, fetched: seq<Fetched>, existing: Existing, c: Counts,
      source: nat, k: KeyType)
    requires Stage(r0, rows, up, fetched, |fetched|, existing, c, source, k)
    ensures Midway(r0, rows, existing, Seen(fetched), c, source, k)
    ensures up ==> Faithful(rows, existing, fetched, source, k)
    ensures up && DistinctKeys(fetched) && AllSeen(existing, r0, source, k) ==> AllUpToDate(rows, fetched, source, k)
    ensures Settled(r0, fetched, source, k) ==> rows == r0 && c == NOTHING
    ensures DistinctKeys(fetched) ==> Tallied(r0, rows, existing, Seen(fetched), c.updated)
  {
    assert fetched[..|fetched|] == fetched;
    hide Midway, Faithful, Exact, Settled, AllUpToDate, Seen, AllSeen, DistinctKeys, Tallied;
  }

  lemma NextSeen(fetched: seq<Fetched>, i: nat)
    requires i < |fetched|
    ensures Seen(fetched[..i + 1]) ==
      if fetched[i].fingerprint == "" then Seen(fetched[..i]) else Seen(fetched[..i]) + {fetched[i].fingerprint}
  {
    SeenSnoc(fetched, i);
  }

  lemma NoKeys(rows: Rows, source: nat, k: KeyType)
    ensures AllUpToDate(rows, [], source, k) && Seen([]) == {}
  {}
}

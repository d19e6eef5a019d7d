/** The periodic walk over every profile, a page at a time, while the table changes. */
module Walk {
  import opened Text

  const MAX_ID: nat := 0x1_0000_0000_0000_0000_0000_0000_0000_0000

  /** A UUID, ordered as PostgreSQL orders them; nil is 0. */
  type Id = n: nat | n < MAX_ID

  /** Profile ids and the users they belong to. */
  type Table = map<Id, string>

  const BATCH: nat := 100

  predicate Ascending(ids: seq<Id>) {
    forall i, j :: 0 <= i < j < |ids| ==> ids[i] < ids[j]
  }

  /** WHERE id > after ORDER BY id LIMIT limit */
  predicate IsPage(table: Table, after: Id, limit: nat, ids: seq<Id>) {
    && |ids| <= limit && Ascending(ids)
    && (forall i :: 0 <= i < |ids| ==> ids[i] in table && after < ids[i])
    && (forall id :: id in table && after < id && id !in ids ==>
        |ids| == limit && forall i :: 0 <= i < |ids| ==> ids[i] < id)
  }

  method NextId(table: Table, after: Id) returns (next: Option<Id>)
    ensures next.None? ==> forall id :: id in table ==> id <= after
    ensures next.Some? ==>
      next.value in table && after < next.value && forall id :: id in table && after < id ==> next.value <= id
  {
    next := None;
    var left := table.Keys;
    while left != {}
      invariant left <= table.Keys
      invariant next.None? ==> forall id :: id in table && id !in left ==> id <= after
      invariant next.Some? ==>
        next.value in table && after < next.value
        && forall id :: id in table && id !in left && after < id ==> next.value <= id
      decreases |left|
    {
      var id :| id in left;
      left := left - {id};
      if after < id && (next.None? || id < next.value) {
        next := Some(id);
      }
    }
  }

  method List(table: Table, after: Id, limit: nat) returns (ids: seq<Id>)
    ensures IsPage(table, after, limit, ids)
  {
    ids := [];
    var last := after;
    while |ids| < limit
      invariant |ids| <= limit && Ascending(ids) && after <= last
      invariant last == if ids == [] then after else ids[|ids| - 1]
      invariant forall i :: 0 <= i < |ids| ==> ids[i] in table && after < ids[i] <= last
      invariant forall id :: id in table && after < id <= last ==> id in ids
      decreases limit - |ids|
    {
      var next := NextId(table, last);
      if next.None? {
        return;
      }
      ids := ids + [next.value];
      last := next.value;
    }
  }

  /** Everyone present whenever the walk looked, from one call to another, up to an id, has been
      handed over. */
  predicate Covers(tables: nat -> Table, from: nat, calls: nat, upTo: Id, visited: seq<Id>) {
    forall id: Id :: 0 < id <= upTo && (forall c :: from <= c < calls ==> id in tables(c)) ==> id in visited
  }

  /** Each profile handed over was listed, under its own user. */
  predicate Genuine(tables: nat -> Table, calls: nat, visited: seq<Id>, subjects: seq<string>) {
    && |subjects| == |visited|
    && forall i :: 0 <= i < |visited| ==> ListedBy(tables, calls, visited[i], subjects[i])
  }

  predicate ListedBy(tables: nat -> Table, calls: nat, id: Id, subject: string) {
    exists c :: 0 <= c < calls && At(tables(c), id, subject)
  }

  predicate At(table: Table, id: Id, subject: string) {
    id in table && table[id] == subject
  }

  class RefreshAllWorker {
    /** The profiles at the time of each listing, which listings fail, which profiles cannot
        be queued. */
    const tables: nat -> Table
    const listUp: nat -> bool
    const enqueueUp: Id -> bool
    var calls: nat
    /** What Enqueue was given, in order. */
    var visited: seq<Id>
    var subjects: seq<string>

    constructor (tables: nat -> Table, listUp: nat -> bool, enqueueUp: Id -> bool)
      ensures this.tables == tables && this.listUp == listUp && this.enqueueUp == enqueueUp
      ensures calls == 0 && visited == [] && subjects == []
    {
      this.tables, this.listUp, this.enqueueUp := tables, listUp, enqueueUp;
      calls, visited, subjects := 0, [], [];
    }

    method Enqueue(id: Id, subject: string) returns (ok: bool)
      modifies this`visited, this`subjects
      ensures visited == old(visited) + [id] && subjects == old(subjects) + [subject]
      ensures ok == enqueueUp(id)
    {
      visited, subjects := visited + [id], subjects + [subject];
      ok := enqueueUp(id);
    }

    /** Ends for every way the table can change, having handed each profile over at most once
        and every profile that was there at every listing exactly once. */
    method Work() returns (done: bool, queued: nat, failed: nat)
      requires calls == 0 && visited == [] && subjects == []
      modifies this
      ensures Ascending(visited) && Genuine(tables, calls, visited, subjects)
      ensures queued + failed == |visited| && queued == Accepted(visited, enqueueUp)
      ensures done <==> forall c :: 0 <= c < calls ==> listUp(c)
      ensures done ==> Covers(tables, 0, calls, MAX_ID - 1, visited)
    {
      hide Walked, Covers, Genuine, IsPage, Accepted, Ascending;
      var after: Id := 0;
      queued, failed := 0, 0;
      NothingYet();
      while true
        invariant Walked(after, queued, failed)
        invariant forall c :: 0 <= c < calls ==> listUp(c)
        decreases MAX_ID - after
      {
        var n := calls;
        WalkedIs(after, queued, failed);
        GenuineLater(tables, n, visited, subjects);
        calls := n + 1;
        if !listUp(n) {
          return false, queued, failed;
        }
        var table := tables(n);
        var batch := List(table, after, BATCH);
        if |batch| == 0 {
          EmptyPage(tables, 0, n, after, BATCH, visited);
          return true, queued, failed;
        }
        ghost var before := visited;
        PageCovers(tables, 0, n, after, BATCH, before, batch);
        PageAfter(table, after, batch);
        AscendingAppend(before, batch, after);
        var queued', failed' := QueueBatch(batch, table);
        AcceptedAppend(before, batch, enqueueUp);
        after, queued, failed := batch[|batch| - 1], queued + queued', failed + failed';
        Walks(after, queued, failed);
      }
    }

    /** Where the walk stands once every profile up to an id has been dealt with. */
    ghost predicate Walked(after: Id, queued: nat, failed: nat)
      reads this
    {
      && Ascending(visited) && (forall i :: 0 <= i < |visited| ==> visited[i] <= after)
      && Genuine(tables, calls, visited, subjects) && Covers(tables, 0, calls, after, visited)
      && queued + failed == |visited| && queued == Accepted(visited, enqueueUp)
    }

    lemma NothingYet()
      requires calls == 0 && visited == [] && subjects == []
      ensures Walked(0, 0, 0)
    {}

    lemma WalkedIs(after: Id, queued: nat, failed: nat)
      requires Walked(after, queued, failed)
      ensures Ascending(visited) && forall i :: 0 <= i < |visited| ==> visited[i] <= after
      ensures Genuine(tables, calls, visited, subjects) && Covers(tables, 0, calls, after, visited)
      ensures queued + failed == |visited| && queued == Accepted(visited, enqueueUp)
    {}

    lemma Walks(after: Id, queued: nat, failed: nat)
      requires Ascending(visited) && forall i :: 0 <= i < |visited| ==> visited[i] <= after
      requires Genuine(tables, calls, visited, subjects) && Covers(tables, 0, calls, after, visited)
      requires queued + failed == |visited| && queued == Accepted(visited, enqueueUp)
      ensures Walked(after, queued, failed)
    {}

    /** Queue one refresh for each profile of a page; one that cannot be queued costs the
        others nothing. */
    method QueueBatch(batch: seq<Id>, table: Table) returns (queued: nat, failed: nat)
      requires calls > 0 && tables(calls - 1) == table && Genuine(tables, calls, visited, subjects)
      requires forall i :: 0 <= i < |batch| ==> batch[i] in table
      modifies this`visited, this`subjects
      ensures visited == old(visited) + batch && Genuine(tables, calls, visited, subjects)
      ensures queued == Accepted(batch, enqueueUp) && queued + failed == |batch|
    {
      hide Genuine;
      queued, failed := 0, 0;
      for i := 0 to |batch|
        invariant visited == old(visited) + batch[..i] && Genuine(tables, calls, visited, subjects)
        invariant queued == Accepted(batch[..i], enqueueUp) && queued + failed == i
      {
        AcceptedSnoc(batch[..i], batch[i], enqueueUp);
        GenuineSnoc(tables, calls, visited, subjects, batch[i], table[batch[i]]);
        assert batch[..i + 1] == batch[..i] + [batch[i]];
        var ok := Enqueue(batch[i], table[batch[i]]);
        if !ok {
          failed := failed + 1;
          continue;
        }
        queued := queued + 1;
      }
      assert batch[..|batch|] == batch;
    }
  }

  lemma PageAfter(table: Table, after: Id, batch: seq<Id>)
    requires IsPage(table, after, BATCH, batch)
    ensures Ascending(batch) && forall i :: 0 <= i < |batch| ==> batch[i] in table && after < batch[i]
  {}

  lemma {:induction false} AcceptedAppend(a: seq<Id>, b: seq<Id>, up: Id -> bool)
    ensures Accepted(a + b, up) == Accepted(a, up) + Accepted(b, up)
  {
    if b == [] {
      assert a + b == a;
    } else {
      assert (a + b)[..|a + b| - 1] == a + b[..|b| - 1];
      AcceptedAppend(a, b[..|b| - 1], up);
    }
  }

  function Accepted(ids: seq<Id>, up: Id -> bool): nat {
    if ids == [] then 0 else Accepted(ids[..|ids| - 1], up) + if up(ids[|ids| - 1]) then 1 else 0
  }

  lemma AcceptedSnoc(ids: seq<Id>, id: Id, up: Id -> bool)
    ensures Accepted(ids + [id], up) == Accepted(ids, up) + if up(id) then 1 else 0
  {
    assert (ids + [id])[..|ids|] == ids;
  }

  lemma GenuineLater(tables: nat -> Table, calls: nat, visited: seq<Id>, subjects: seq<string>)
    requires Genuine(tables, calls, visited, subjects)
    ensures Genuine(tables, calls + 1, visited, subjects)
  {
    forall i | 0 <= i < |visited|
      ensures ListedBy(tables, calls + 1, visited[i], subjects[i])
    {
      var c :| 0 <= c < calls && At(tables(c), visited[i], subjects[i]);
    }
  }

  lemma GenuineSnoc(tables: nat -> Table, calls: nat, visited: seq<Id>, subjects: seq<string>, id: Id, subject: string)
    requires calls > 0 && Genuine(tables, calls, visited, subjects)
    requires id in tables(calls - 1) && tables(calls - 1)[id] == subject
    ensures Genuine(tables, calls, visited + [id], subjects + [subject])
  {
    var v, s := visited + [id], subjects + [subject];
    assert ListedBy(tables, calls, id, subject) by {
      assert At(tables(calls - 1), id, subject);
    }
    assert forall i :: 0 <= i < |visited| ==> v[i] == visited[i] && s[i] == subjects[i];
    hide ListedBy;
  }

  lemma EmptyPage(tables: nat -> Table, from: nat, calls: nat, after: Id, limit: nat, visited: seq<Id>)
    requires from <= calls && Covers(tables, from, calls, after, visited)
    requires limit > 0 && IsPage(tables(calls), after, limit, [])
    ensures Covers(tables, from, calls + 1, MAX_ID - 1, visited)
  {
    assert forall id :: id in tables(calls) ==> id <= after;
  }

  lemma PageCovers(tables: nat -> Table, from: nat, calls: nat, after: Id, limit: nat, visited: seq<Id>, batch: seq<Id>)
    requires from <= calls && Covers(tables, from, calls, after, visited)
    requires batch != [] && IsPage(tables(calls), after, limit, batch)
    ensures Covers(tables, from, calls + 1, batch[|batch| - 1], visited + batch)
  {
    forall id: Id | 0 < id <= batch[|batch| - 1] && (forall c :: from <= c < calls + 1 ==> id in tables(c))
      ensures id in visited + batch
    {
      assert id in tables(calls);
    }
  }

  lemma AscendingAppend(a: seq<Id>, b: seq<Id>, mid: Id)
    requires Ascending(a) && Ascending(b)
    requires forall i :: 0 <= i < |a| ==> a[i] <= mid
    requires forall i :: 0 <= i < |b| ==> mid < b[i]
    ensures Ascending(a + b)
    ensures b != [] ==> forall i :: 0 <= i < |a + b| ==> (a + b)[i] <= b[|b| - 1]
  {}
}

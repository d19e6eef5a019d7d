/** The sources table: one row per provider account, each with at most one owning profile. */
module Sources {
  import opened Text

  datatype Source = Source(provider: string, userId: string, username: string, uri: string, profile: Option<nat>)

  type Table = map<nat, Source>

  /** UNIQUE (provider, user_id) */
  predicate OnePerAccount(rows: Table) {
    forall i, j :: i in rows && j in rows && i != j && rows[i].provider == rows[j].provider ==>
      rows[i].userId != rows[j].userId
  }

  predicate HasUser(s: Source, provider: string, userId: string) {
    s.provider == provider && s.userId == userId
  }

  predicate HasName(s: Source, provider: string, username: string) {
    s.provider == provider && s.username == username
  }

  datatype Lookup = Found(id: nat) | NotFound | Failed

  class SourceStore {
    var rows: Table
    var calls: nat
    var next: nat
    const down: nat -> bool

    constructor (down: nat -> bool)
      ensures Valid() && rows == map[] && calls == 0 && this.down == down
    {
      rows, calls, next, this.down := map[], 0, 0, down;
    }

    ghost predicate Valid()
      reads this
    {
      OnePerAccount(rows) && forall id :: id in rows ==> id < next
    }

    ghost predicate UpSince(n: nat)
      reads this
    {
      forall c :: n <= c < calls ==> !down(c)
    }

    method GetByProviderAndUserId(provider: string, userId: string) returns (r: Lookup)
      requires Valid()
      modifies this
      ensures Valid() && rows == old(rows) && calls == old(calls) + 1
      ensures r.Failed? <==> down(old(calls))
      ensures r.Found? ==> r.id in rows && rows[r.id].provider == provider && rows[r.id].userId == userId
      ensures r.NotFound? ==> forall id :: id in rows && rows[id].provider == provider ==> rows[id].userId != userId
    {
      calls := calls + 1;
      if down(calls - 1) {
        return Failed;
      }
      if id :| id in rows && HasUser(rows[id], provider, userId) {
        return Found(id);
      }
      r := NotFound;
    }

    /** Usernames need not be unique: which of several rows comes back is not promised. */
    method GetByProviderAndUsername(provider: string, username: string) returns (r: Lookup)
      requires Valid()
      modifies this
      ensures Valid() && rows == old(rows) && calls == old(calls) + 1
      ensures r.Failed? <==> down(old(calls))
      ensures r.Found? ==> r.id in rows && rows[r.id].provider == provider && rows[r.id].username == username
      ensures r.NotFound? ==>
        forall id :: id in rows && rows[id].provider == provider ==> rows[id].username != username
    {
      calls := calls + 1;
      if down(calls - 1) {
        return Failed;
      }
      if id :| id in rows && HasName(rows[id], provider, username) {
        return Found(id);
      }
      r := NotFound;
    }

    method Create(provider: string, userId: string, username: string, uri: string) returns (id: Option<nat>)
      requires Valid()
      modifies this
      ensures Valid() && calls == old(calls) + 1
      ensures id.Some? <==>
        && !down(old(calls))
        && forall i :: i in old(rows) && old(rows)[i].provider == provider ==> old(rows)[i].userId != userId
      ensures id.Some? ==> id.value !in old(rows)
      ensures rows ==
        if id.Some? then old(rows)[id.value := Source(provider, userId, username, uri, None)] else old(rows)
    {
      calls := calls + 1;
      if down(calls - 1) || exists i :: i in rows && HasUser(rows[i], provider, userId) {
        return None;
      }
      id := Some(next);
      rows, next := rows[next := Source(provider, userId, username, uri, None)], next + 1;
    }

    method Update(id: nat, username: string, uri: string) returns (ok: bool)
      requires Valid()
      modifies this
      ensures Valid() && calls == old(calls) + 1
      ensures ok <==> !down(old(calls)) && id in old(rows)
      ensures rows == if ok then old(rows)[id := old(rows)[id].(username := username, uri := uri)] else old(rows)
    {
      calls := calls + 1;
      if down(calls - 1) || id !in rows {
        return false;
      }
      rows := rows[id := rows[id].(username := username, uri := uri)];
      ok := true;
    }

    method SetProfile(id: nat, profile: nat) returns (ok: bool)
      requires Valid()
      modifies this
      ensures Valid() && calls == old(calls) + 1 && (ok <==> !down(old(calls)))
      ensures rows ==
        if ok && id in old(rows) then old(rows)[id := old(rows)[id].(profile := Some(profile))] else old(rows)
    {
      calls := calls + 1;
      ok := !down(calls - 1);
      if ok && id in rows {
        rows := rows[id := rows[id].(profile := Some(profile))];
      }
    }

    method ClearProfile(profile: nat) returns (ok: bool)
      requires Valid()
      modifies this
      ensures Valid() && calls == old(calls) + 1 && (ok <==> !down(old(calls)))
      ensures rows == if ok then Rebuilt(old(rows), profile, {}) else old(rows)
      ensures ok ==> forall id :: id in rows ==> rows[id].profile != Some(profile)
    {
      calls := calls + 1;
      ok := !down(calls - 1);
      if ok {
        rows := map id | id in rows ::
          if rows[id].profile == Some(profile) then rows[id].(profile := None) else rows[id];
      }
    }
  }

  /** The table with these sources, and no others, owned by the profile. */
  function Rebuilt(rows: Table, profile: nat, owned: set<nat>): Table {
    map id | id in rows ::
      if id in owned then rows[id].(profile := Some(profile))
      else if rows[id].profile == Some(profile) then rows[id].(profile := None)
      else rows[id]
  }

  lemma RebuiltMore(rows: Table, profile: nat, owned: set<nat>, id: nat)
    requires id in rows
    ensures var t := Rebuilt(rows, profile, owned);
      t[id := t[id].(profile := Some(profile))] == Rebuilt(rows, profile, owned + {id})
  {}
}

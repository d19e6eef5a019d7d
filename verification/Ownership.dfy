/** Rebuilding which sources a profile owns, in its two implementations. */
module Ownership {
  import opened Text
  import opened Sources

  datatype Account = Account(provider: string, username: string)

  predicate Answers(rows: Table, a: Account, r: Option<nat>) {
    match r
    case Some(id) => id in rows && HasName(rows[id], a.provider, a.username)
    case None => forall id :: id in rows ==> !HasName(rows[id], a.provider, a.username)
  }

  /** A possible answer of the lookup for each account. */
  predicate Resolution(rows: Table, accounts: seq<Account>, res: seq<Option<nat>>) {
    |res| == |accounts| && forall i :: 0 <= i < |accounts| ==> Answers(rows, accounts[i], res[i])
  }

  function Owned(res: seq<Option<nat>>): set<nat> {
    set i | 0 <= i < |res| && res[i].Some? :: res[i].value
  }

  /** A profile owns what its accounts resolve to, and nothing else; of every other profile's
      sources it took those, and no more. */
  lemma RebuiltOwners(rows: Table, profile: nat, owned: set<nat>, id: nat)
    requires owned <= rows.Keys && id in rows
    ensures var t := Rebuilt(rows, profile, owned);
      && t.Keys == rows.Keys
      && (t[id].profile == Some(profile) <==> id in owned)
      && (forall other :: other != profile ==>
          (t[id].profile == Some(other) <==> rows[id].profile == Some(other) && id !in owned))
      && t[id].(profile := None) == rows[id].(profile := None)
  {}

  predicate NameMatches(rows: Table, a: Account, id: nat) {
    id in rows && HasName(rows[id], a.provider, a.username)
  }

  /** No account's name is shared by two sources. */
  predicate Unambiguous(rows: Table, accounts: seq<Account>) {
    forall i, x, y :: 0 <= i < |accounts| && x in rows && y in rows ==>
      NameMatches(rows, accounts[i], x) && NameMatches(rows, accounts[i], y) ==> x == y
  }

  ghost predicate Determined(rows: Table, accounts: seq<Account>, profile: nat) {
    forall r, s :: Resolution(rows, accounts, r) && Resolution(rows, accounts, s) ==>
      Rebuilt(rows, profile, Owned(r)) == Rebuilt(rows, profile, Owned(s))
  }

  lemma SameAnswers(rows: Table, accounts: seq<Account>, r: seq<Option<nat>>, s: seq<Option<nat>>)
    requires Unambiguous(rows, accounts) && Resolution(rows, accounts, r) && Resolution(rows, accounts, s)
    ensures r == s
  {
    forall i | 0 <= i < |accounts|
      ensures r[i] == s[i]
    {
      assert Answers(rows, accounts[i], r[i]) && Answers(rows, accounts[i], s[i]);
      if r[i].Some? && s[i].Some? {
        assert NameMatches(rows, accounts[i], r[i].value) && NameMatches(rows, accounts[i], s[i].value);
      }
    }
  }

  ghost function AnyAnswer(rows: Table, a: Account): (r: Option<nat>)
    ensures Answers(rows, a, r)
  {
    if exists id :: NameMatches(rows, a, id) then
      var id :| NameMatches(rows, a, id);
      Some(id)
    else
      assert forall id :: id in rows && HasName(rows[id], a.provider, a.username) ==> NameMatches(rows, a, id);
      None
  }

  /** Every account like the i-th answered with this source. */
  ghost function Choosing(rows: Table, accounts: seq<Account>, a: Account, id: nat): (r: seq<Option<nat>>)
    requires NameMatches(rows, a, id)
    ensures Resolution(rows, accounts, r)
    ensures forall j :: 0 <= j < |accounts| ==> (accounts[j] == a ==> r[j] == Some(id))
  {
    seq(|accounts|, j requires 0 <= j < |accounts| =>
      if accounts[j] == a then Some(id) else AnyAnswer(rows, accounts[j]))
  }

  lemma ChosenAlone(rows: Table, accounts: seq<Account>, i: nat, x: nat, y: nat)
    requires i < |accounts| && x != y && NameMatches(rows, accounts[i], x) && NameMatches(rows, accounts[i], y)
    ensures x in Owned(Choosing(rows, accounts, accounts[i], x))
    ensures x !in Owned(Choosing(rows, accounts, accounts[i], y))
  {
    var r, s := Choosing(rows, accounts, accounts[i], x), Choosing(rows, accounts, accounts[i], y);
    assert r[i] == Some(x);
    forall j | 0 <= j < |s|
      ensures s[j] != Some(x)
    {
      assert Answers(rows, accounts[j], s[j]);
    }
  }

  /** The outcome is settled in advance, and so the same for both implementations when nothing
      fails, exactly when no connected account's name belongs to two sources. */
  lemma DeterminedExactly(rows: Table, accounts: seq<Account>, profile: nat)
    ensures Determined(rows, accounts, profile) <==> Unambiguous(rows, accounts)
  {
    hide Resolution, Owned, Rebuilt, NameMatches;
    if Unambiguous(rows, accounts) {
      forall r, s | Resolution(rows, accounts, r) && Resolution(rows, accounts, s)
        ensures Rebuilt(rows, profile, Owned(r)) == Rebuilt(rows, profile, Owned(s))
      {
        SameAnswers(rows, accounts, r, s);
      }
    } else {
      var i, x, y :| 0 <= i < |accounts| && x in rows && y in rows
        && NameMatches(rows, accounts[i], x) && NameMatches(rows, accounts[i], y) && x != y;
      ChosenAlone(rows, accounts, i, x, y);
      DifferentOwners(rows, profile, Owned(Choosing(rows, accounts, accounts[i], x)),
        Owned(Choosing(rows, accounts, accounts[i], y)), x);
    }
  }

  lemma DifferentOwners(rows: Table, profile: nat, a: set<nat>, b: set<nat>, id: nat)
    requires id in rows && id in a && id !in b
    ensures Rebuilt(rows, profile, a) != Rebuilt(rows, profile, b)
  {
    assert Rebuilt(rows, profile, a)[id].profile == Some(profile);
    assert Rebuilt(rows, profile, b)[id].profile != Some(profile);
  }

  lemma OwnedSnoc(res: seq<Option<nat>>, r: Option<nat>)
    ensures Owned(res + [r]) == Owned(res) + if r.Some? then {r.value} else {}
  {
    var more := res + [r];
    assert forall i :: 0 <= i < |res| ==> more[i] == res[i];
    forall id | id in Owned(res)
      ensures id in Owned(more)
    {
      var i :| 0 <= i < |res| && res[i].Some? && res[i].value == id;
      assert more[i] == res[i];
    }
    if r.Some? {
      assert more[|res|] == r;
    }
  }

  /** Names do not change while owners do. */
  lemma AnswersStay(rows: Table, profile: nat, owned: set<nat>, a: Account, r: Option<nat>)
    ensures Answers(Rebuilt(rows, profile, owned), a, r) <==> Answers(rows, a, r)
  {
    assert forall id :: id in rows ==> Rebuilt(rows, profile, owned)[id].username == rows[id].username;
  }

  lemma Snoc(rows: Table, accounts: seq<Account>, i: nat, res: seq<Option<nat>>, r: Option<nat>)
    requires i < |accounts| && Resolution(rows, accounts[..i], res) && Answers(rows, accounts[i], r)
    ensures Resolution(rows, accounts[..i + 1], res + [r])
  {
    hide Answers;
    assert accounts[..i + 1] == accounts[..i] + [accounts[i]];
  }

  class Owners {
    const sources: SourceStore

    constructor (sources: SourceStore)
      ensures this.sources == sources
    {
      this.sources := sources;
    }

    /** Look an account's source up and mark it, when there is one. */
    method Claim(profile: nat, a: Account, ghost rows: Table, ghost owned: set<nat>) returns (found: Lookup, done: bool)
      requires sources.Valid() && sources.rows == Rebuilt(rows, profile, owned)
      modifies sources
      ensures sources.Valid() && sources.calls > old(sources.calls)
      ensures done && !found.Failed? <==> (forall c :: old(sources.calls) <= c < sources.calls ==> !sources.down(c))
      ensures !found.Failed? ==> Answers(rows, a, if found.Found? then Some(found.id) else None)
      ensures found.Found? ==> NameMatches(rows, a, found.id)
      ensures sources.rows == Rebuilt(rows, profile, if found.Found? && done then owned + {found.id} else owned)
    {
      found := sources.GetByProviderAndUsername(a.provider, a.username);
      done := !found.Failed?;
      hide Answers, Rebuilt, NameMatches, OnePerAccount;
      Answered(sources.rows, a, found);
      AnswersStay(rows, profile, owned, a, if found.Found? then Some(found.id) else None);
      if found.Found? {
        RebuiltHas(rows, profile, owned, a, found.id);
        RebuiltMore(rows, profile, owned, found.id);
        done := sources.SetProfile(found.id, profile);
      }
    }

    /** keyops: the first failure ends it. What was done by then stays. */
    method SyncOwnership(profile: nat, accounts: seq<Account>) returns (ok: bool, res: seq<Option<nat>>)
      requires sources.Valid()
      modifies sources
      ensures sources.Valid()
      ensures ok <==> sources.UpSince(old(sources.calls))
      ensures |res| <= |accounts| && Resolution(old(sources.rows), accounts[..|res|], res)
      ensures ok ==> |res| == |accounts|
      ensures sources.rows == Rebuilt(old(sources.rows), profile, Owned(res))
        || (!ok && res == [] && sources.rows == old(sources.rows))
    {
      ghost var rows := sources.rows;
      res := [];
      assert Owned([]) == {};
      var cleared := sources.ClearProfile(profile);
      if !cleared {
        return false, [];
      }
      for i := 0 to |accounts|
        invariant sources.Valid() && sources.calls > old(sources.calls) && sources.UpSince(old(sources.calls))
        invariant |res| == i && Resolution(rows, accounts[..i], res)
        invariant sources.rows == Rebuilt(rows, profile, Owned(res))
      {
        hide Resolution, Answers, Rebuilt, Owned, OnePerAccount, NameMatches;
        var found, done := Claim(profile, accounts[i], rows, Owned(res));
        if found.Failed? || !done {
          return false, res;
        }
        var r := if found.Found? then Some(found.id) else None;
        Snoc(rows, accounts, i, res, r);
        OwnedSnoc(res, r);
        res := res + [r];
      }
      assert accounts[..|accounts|] == accounts;
      ok := true;
    }

    /** The profile page: a failed lookup or write is only logged. */
    method SyncOwnershipBestEffort(profile: nat, accounts: seq<Account>) returns (owned: set<nat>,
        res: seq<Option<nat>>)
      requires sources.Valid()
      modifies sources
      ensures sources.Valid()
      ensures sources.rows == Rebuilt(old(sources.rows), profile, owned)
        || (!sources.UpSince(old(sources.calls)) && owned == {} && sources.rows == old(sources.rows))
      ensures forall id :: id in owned ==>
        exists i :: 0 <= i < |accounts| && NameMatches(old(sources.rows), accounts[i], id)
      ensures sources.UpSince(old(sources.calls)) ==>
        Resolution(old(sources.rows), accounts, res) && owned == Owned(res)
    {
      ghost var rows := sources.rows;
      owned, res := {}, [];
      assert Owned([]) == {};
      var cleared := sources.ClearProfile(profile);
      if !cleared {
        return;
      }
      for i := 0 to |accounts|
        invariant sources.Valid() && sources.calls > old(sources.calls)
        invariant sources.rows == Rebuilt(rows, profile, owned)
        invariant forall id :: id in owned ==> exists j :: 0 <= j < i && NameMatches(rows, accounts[j], id)
        invariant sources.UpSince(old(sources.calls)) ==>
          Resolution(rows, accounts[..i], res) && owned == Owned(res)
      {
        hide Resolution, Answers, Rebuilt, Owned, OnePerAccount, NameMatches;
        var found, done := Claim(profile, accounts[i], rows, owned);
        if found.Failed? {
          continue;
        }
        var r := if found.Found? then Some(found.id) else None;
        if sources.UpSince(old(sources.calls)) {
          Snoc(rows, accounts, i, res, r);
          OwnedSnoc(res, r);
        }
        res := res + [r];
        if done && found.Found? {
          owned := owned + {found.id};
        }
      }
      assert accounts[..|accounts|] == accounts;
    }
  }

  lemma Answered(rows: Table, a: Account, found: Lookup)
    requires found.Found? ==> found.id in rows && HasName(rows[found.id], a.provider, a.username)
    requires found.NotFound? ==> forall id :: id in rows ==> !HasName(rows[id], a.provider, a.username)
    ensures !found.Failed? ==> Answers(rows, a, if found.Found? then Some(found.id) else None)
  {}

  lemma RebuiltHas(rows: Table, profile: nat, owned: set<nat>, a: Account, id: nat)
    requires id in Rebuilt(rows, profile, owned) && HasName(Rebuilt(rows, profile, owned)[id], a.provider, a.username)
    ensures NameMatches(rows, a, id) && id in rows
  {}
}

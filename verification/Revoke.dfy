/** Revoking one key: at its provider first, then in the store. Any call can fail or be
    misreported and the process can die between any two. */
module Revoke {
  import opened Text
  import opened Keys
  import opened KeyStore
  import opened Sources
  import opened Reports
  import opened Tasks

  datatype ProviderKey = ProviderKey(id: string, keyType: KeyType, fingerprint: string)

  /** How the provider takes a call: as it should, with a 404, or with an error, the call's
      effect having happened or not. */
  datatype Reply = Honest | Says404 | Errs(applied: bool)

  datatype Listing = Listed(keys: seq<ProviderKey>) | NotThere | ListFailed

  datatype Deletion = Deleted | Gone | DeleteFailed

  const PAGE: nat := 100

  function OfType(keys: seq<ProviderKey>, k: KeyType): seq<ProviderKey> {
    if keys == [] then []
    else (if keys[0].keyType == k then [keys[0]] else []) + OfType(keys[1..], k)
  }

  predicate IsKey(p: ProviderKey, k: KeyType, id: string) {
    p.keyType == k && p.id == id
  }

  function Without(keys: seq<ProviderKey>, k: KeyType, id: string): seq<ProviderKey> {
    if keys == [] then []
    else (if IsKey(keys[0], k, id) then [] else [keys[0]]) + Without(keys[1..], k, id)
  }

  predicate SamePrint(p: ProviderKey, e: Row) {
    p.fingerprint != "" && p.fingerprint == e.fingerprint
  }

  predicate Hits(p: ProviderKey, e: Row) {
    SamePrint(p, e) || e.providerKeyId == Some(p.id)
  }

  /** The provider's key is the stored one, by fingerprint or by recorded id. */
  predicate MatchesKey(p: ProviderKey, e: Row) {
    p.keyType == e.keyType && Hits(p, e)
  }

  predicate Absent(keys: seq<ProviderKey>, e: Row) {
    forall p :: p in keys ==> !MatchesKey(p, e)
  }

  /** What a revocation relies on: the provider lists all its keys at once, and no two of them
      match one stored key. */
  predicate Sound(keys: seq<ProviderKey>, e: Row) {
    && |OfType(keys, e.keyType)| <= 100
    && forall p, q :: p in keys && q in keys && MatchesKey(p, e) && MatchesKey(q, e) ==> p.id == q.id
  }

  lemma {:induction false} OfTypeHas(keys: seq<ProviderKey>, k: KeyType, p: ProviderKey)
    ensures p in OfType(keys, k) <==> p in keys && p.keyType == k
  {
    if keys != [] {
      OfTypeHas(keys[1..], k, p);
      assert p in keys <==> p == keys[0] || p in keys[1..];
    }
  }

  lemma {:induction false} WithoutHas(keys: seq<ProviderKey>, k: KeyType, id: string, p: ProviderKey)
    ensures p in Without(keys, k, id) <==> p in keys && !IsKey(p, k, id)
  {
    if keys != [] {
      WithoutHas(keys[1..], k, id, p);
      assert p in keys <==> p == keys[0] || p in keys[1..];
    }
  }

  /** What one request lists of the keys of a type. */
  function FirstPage(keys: seq<ProviderKey>, k: KeyType): seq<ProviderKey> {
    var all := OfType(keys, k);
    if |all| <= PAGE then all else all[..PAGE]
  }

  /** The keys of a type are listed in the provider's order. */
  lemma {:induction false} OfTypeAppend(a: seq<ProviderKey>, b: seq<ProviderKey>, k: KeyType)
    ensures OfType(a + b, k) == OfType(a, k) + OfType(b, k)
  {
    if a == [] {
      assert a + b == b;
    } else {
      assert (a + b)[1..] == a[1..] + b;
      OfTypeAppend(a[1..], b, k);
    }
  }

  /** A key comes on the first page exactly when fewer than a hundred of its type come before. */
  lemma FirstPageHas(a: seq<ProviderKey>, p: ProviderKey, b: seq<ProviderKey>)
    ensures |OfType(a, p.keyType)| < 100 ==> p in FirstPage(a + [p] + b, p.keyType)
    ensures p !in a + b ==> (p in FirstPage(a + [p] + b, p.keyType) <==> |OfType(a, p.keyType)| < 100)
  {
    var k := p.keyType;
    OfTypeAppend(a + [p], b, k);
    OfTypeAppend(a, [p], k);
    OfTypeHas(a, k, p);
    OfTypeHas(b, k, p);
    assert OfType([p], k) == [p];
    hide OfType;
    var all := OfType(a + [p] + b, k);
    var n := |OfType(a, k)|;
    assert all == OfType(a, k) + [p] + OfType(b, k) && all[n] == p;
    assert n < 100 ==> FirstPage(a + [p] + b, k)[n] == p;
  }

  class Provider {
    var keys: seq<ProviderKey>

    constructor (keys: seq<ProviderKey>)
      ensures this.keys == keys
    {
      this.keys := keys;
    }

    method ListKeys(k: KeyType, reply: Reply) returns (r: Listing)
      ensures r == match reply
        case Honest => Listed(FirstPage(keys, k))
        case Says404 => NotThere
        case Errs(_) => ListFailed
      ensures r.Listed? ==> |r.keys| <= 100
    {
      match reply
      case Honest =>
        var all := OfType(keys, k);
        r := Listed(if |all| <= PAGE then all else all[..PAGE]);
      case Says404 => r := NotThere;
      case Errs(_) => r := ListFailed;
    }

    method DeleteKey(k: KeyType, id: string, reply: Reply) returns (r: Deletion)
      modifies this
      ensures keys == if reply == Honest || reply == Errs(true) then Without(old(keys), k, id) else old(keys)
      ensures r == match reply
        case Honest => if exists p :: p in old(keys) && IsKey(p, k, id) then Deleted else Gone
        case Says404 => Gone
        case Errs(_) => DeleteFailed
      ensures if reply == Honest || reply == Errs(true) then OnlyLacks(old(keys), keys, k, id) else keys == old(keys)
    {
      WithoutOnlyLacks(keys, k, id);
      var known := exists p :: p in keys && IsKey(p, k, id);
      if reply == Honest || reply == Errs(true) {
        keys := Without(keys, k, id);
      }
      match reply
      case Honest => r := if known then Deleted else Gone;
      case Says404 => r := Gone;
      case Errs(_) => r := DeleteFailed;
    }
  }

  predicate Resolved(listed: seq<ProviderKey>, e: Row, id: Option<string>) {
    match id
    case Some(v) => exists i :: 0 <= i < |listed| && listed[i].id == v && Hits(listed[i], e)
    case None => forall i :: 0 <= i < |listed| ==> !Hits(listed[i], e)
  }

  /** The id of the first key with the stored fingerprint. */
  function ByPrint(listed: seq<ProviderKey>, e: Row): Option<string> {
    if listed == [] then None
    else if SamePrint(listed[0], e) then Some(listed[0].id)
    else ByPrint(listed[1..], e)
  }

  predicate HasId(listed: seq<ProviderKey>, id: Option<string>) {
    exists i :: 0 <= i < |listed| && id == Some(listed[i].id)
  }

  /** The id a revocation means to delete, when the listing is honest. */
  function Target(keys: seq<ProviderKey>, e: Row): Option<string> {
    var listed := FirstPage(keys, e.keyType);
    if ByPrint(listed, e).Some? then ByPrint(listed, e)
    else if HasId(listed, e.providerKeyId) then e.providerKeyId
    else None
  }

  /** The listed key with the stored fingerprint, else the one with the recorded id. */
  method ResolveProviderKeyId(listed: seq<ProviderKey>, e: Row) returns (id: Option<string>)
    ensures Resolved(listed, e, id)
    ensures id == if ByPrint(listed, e).Some? then ByPrint(listed, e)
      else if HasId(listed, e.providerKeyId) then e.providerKeyId else None
    ensures (exists i :: 0 <= i < |listed| && SamePrint(listed[i], e)) ==>
      exists i :: 0 <= i < |listed| && SamePrint(listed[i], e) && id == Some(listed[i].id)
  {
    for i := 0 to |listed|
      invariant forall j :: 0 <= j < i ==> !SamePrint(listed[j], e)
      invariant ByPrint(listed, e) == ByPrint(listed[i..], e)
    {
      if listed[i].fingerprint != "" && listed[i].fingerprint == e.fingerprint {
        return Some(listed[i].id);
      }
    }
    if e.providerKeyId.Some? {
      for i := 0 to |listed|
        invariant forall j :: 0 <= j < i ==> e.providerKeyId != Some(listed[j].id)
      {
        if listed[i].id == e.providerKeyId.value {
          return Some(listed[i].id);
        }
      }
    }
    id := None;
  }

  /** One attempt's surroundings: how the identity service and the provider reply, and how
      many of the outside calls that matter the process lives to make. */
  datatype Weather = Weather(
    account: Option<string>, token: bool, scopes: bool, list: Reply, delete: Reply, lives: nat)

  datatype Ending = Revoked(alreadyGone: bool) | NoSuchKey | NotOwned | Refused | Died

  function Lower(c: char): char {
    if 'A' <= c <= 'Z' then c - 'A' + 'a' else c
  }

  predicate EqualFold(a: string, b: string) {
    |a| == |b| && forall i :: 0 <= i < |a| ==> Lower(a[i]) == Lower(b[i])
  }

  /** The same but for the case of ASCII letters. */

  predicate SameLetter(c: char, d: char) {
    || c == d
    || ('a' <= c <= 'z' && c - 'a' + 'A' == d)
    || ('A' <= c <= 'Z' && c - 'A' + 'a' == d)
  }

  predicate SameButCase(a: string, b: string) {
    |a| == |b| && forall i :: 0 <= i < |a| ==> SameLetter(a[i], b[i])
  }

  predicate NoCapitals(a: string) {
    forall i :: 0 <= i < |a| ==> !('A' <= a[i] <= 'Z')
  }

  function Folded(a: string): string {
    seq(|a|, i requires 0 <= i < |a| => Lower(a[i]))
  }

  /** Two names are taken for one exactly when they differ in letter case alone; without
      capitals that is to be equal, and folding either name changes nothing. */
  lemma EqualFoldExactly(a: string, b: string)
    ensures EqualFold(a, b) <==> SameButCase(a, b)
    ensures NoCapitals(a) && NoCapitals(b) ==> (EqualFold(a, b) <==> a == b)
    ensures EqualFold(Folded(a), b) <==> EqualFold(a, b)
    ensures EqualFold(a, Folded(b)) <==> EqualFold(a, b)
    ensures NoCapitals(Folded(a))
  {
    LowerIs();
    hide Lower, SameLetter;
  }

  lemma LowerIs()
    ensures forall c, d :: Lower(c) == Lower(d) <==> SameLetter(c, d)
    ensures forall c :: Lower(Lower(c)) == Lower(c) && !('A' <= Lower(c) <= 'Z')
    ensures forall c :: !('A' <= c <= 'Z') ==> Lower(c) == c
  {}

  /** Nothing goes wrong on the way. */
  predicate Smooth(w: Weather) {
    w.token && w.scopes && w.list == Honest && w.delete == Honest && w.lives >= 3
  }

  /** The code gets to a 404, to the listing or to the deletion. */
  predicate Misled(w: Weather) {
    w.list == Says404 || (w.list == Honest && w.delete == Says404)
  }

  /** The user has proved they hold the account that publishes the key. */
  predicate MayRevoke(e: Row, sources: Sources.Table, w: Weather) {
    && e.source in sources && w.account.Some?
    && SameButCase(w.account.value, sources[e.source].username)
  }

  predicate OnlyLacks(before: seq<ProviderKey>, after: seq<ProviderKey>, k: KeyType, id: string) {
    && (forall q :: q in after ==> q in before && (q.keyType != k || q.id != id))
    && (forall q :: q in before && (q.keyType != k || q.id != id) ==> q in after)
  }

  lemma WithoutOnlyLacks(keys: seq<ProviderKey>, k: KeyType, id: string)
    ensures OnlyLacks(keys, Without(keys, k, id), k, id)
  {
    forall q
      ensures q in Without(keys, k, id) <==> q in keys && !IsKey(q, k, id)
    {
      WithoutHas(keys, k, id, q);
    }
    hide Without;
  }

  /** What an attempt may have done at the provider, wherever it stopped: at most one matching
      key deleted. */
  predicate Attempted(e: Row, before: seq<ProviderKey>, after: seq<ProviderKey>) {
    || after == before
    || exists p :: p in before && MatchesKey(p, e)
         && after == Without(before, e.keyType, p.id) && OnlyLacks(before, after, e.keyType, p.id)
  }

  /** The provider still lists a matching key when it is done with: there was one, and a 404
      stood for its absence, or none was on the first page, or another than the deleted one
      matches too. */
  predicate LeavesListed(e: Row, before: seq<ProviderKey>, w: Weather) {
    && !Absent(before, e) && w.token && w.scopes
    && (|| (w.list == Says404 && w.lives >= 1)
        || (&& w.list == Honest
            && match Target(before, e)
               case None => w.lives >= 1
               case Some(id) =>
                 && w.lives >= 2
                 && (w.delete == Says404 || (w.delete == Honest && MatchesBut(before, e, id)))))
  }

  predicate MatchesBut(keys: seq<ProviderKey>, e: Row, id: string) {
    exists q :: q in keys && MatchesKey(q, e) && q.id != id
  }

  /** Where the provider lists all its keys at once and no two of them match, that takes a 404. */
  lemma LeavesExactly(e: Row, before: seq<ProviderKey>, w: Weather)
    requires Sound(before, e)
    ensures LeavesListed(e, before, w) <==>
      && !Absent(before, e) && w.token && w.scopes && Misled(w)
      && w.lives >= if w.list == Says404 then 1 else 2
  {
    TargetIs(before, e);
    hide Target, OfType, MatchesKey;
  }

  lemma ListedMatches(keys: seq<ProviderKey>, e: Row, listed: seq<ProviderKey>, id: Option<string>)
    requires listed == FirstPage(keys, e.keyType) && Resolved(listed, e, id)
    ensures id.Some? ==> exists p :: p in keys && p.id == id.value && MatchesKey(p, e)
    ensures id.None? && Sound(keys, e) ==> Absent(keys, e)
  {
    var all := OfType(keys, e.keyType);
    if id.Some? {
      var i :| 0 <= i < |listed| && listed[i].id == id.value && Hits(listed[i], e);
      assert listed[i] == all[i] && all[i] in all;
      OfTypeHas(keys, e.keyType, listed[i]);
    } else if Sound(keys, e) {
      forall p | p in keys
        ensures !MatchesKey(p, e)
      {
        OfTypeHas(keys, e.keyType, p);
      }
    }
  }

  lemma {:induction false} PrintIs(listed: seq<ProviderKey>, e: Row)
    ensures ByPrint(listed, e).None? <==> forall i :: 0 <= i < |listed| ==> !SamePrint(listed[i], e)
    ensures ByPrint(listed, e).Some? ==>
      exists i :: 0 <= i < |listed| && SamePrint(listed[i], e) && ByPrint(listed, e) == Some(listed[i].id)
  {
    if listed != [] && !SamePrint(listed[0], e) {
      var rest := listed[1..];
      PrintIs(rest, e);
      if ByPrint(rest, e).Some? {
        var i :| 0 <= i < |rest| && SamePrint(rest[i], e) && ByPrint(rest, e) == Some(rest[i].id);
        assert listed[i + 1] == rest[i];
      }
      assert forall i :: 0 < i < |listed| ==> listed[i] == rest[i - 1];
    }
  }

  /** The target is some matching key's, and there is one unless the first page has none. */
  lemma TargetIs(keys: seq<ProviderKey>, e: Row)
    ensures Resolved(FirstPage(keys, e.keyType), e, Target(keys, e))
    ensures Target(keys, e).Some? ==> exists p :: p in keys && Some(p.id) == Target(keys, e) && MatchesKey(p, e)
    ensures Target(keys, e).None? && Sound(keys, e) ==> Absent(keys, e)
  {
    var listed := FirstPage(keys, e.keyType);
    PrintIs(listed, e);
    hide ByPrint, FirstPage, Sound;
    ListedMatches(keys, e, listed, Target(keys, e));
  }

  lemma DeletedIsAbsent(keys: seq<ProviderKey>, e: Row, p: ProviderKey)
    requires p in keys && MatchesKey(p, e)
    ensures Absent(Without(keys, e.keyType, p.id), e) <==> !MatchesBut(keys, e, p.id)
  {
    var after := Without(keys, e.keyType, p.id);
    forall q
      ensures q in after <==> q in keys && !IsKey(q, e.keyType, p.id)
    {
      WithoutHas(keys, e.keyType, p.id, q);
    }
    hide Without;
  }

  /** A revocation that drops the row while the provider lists the key. */
  predicate Dooms(e: Row, before: seq<ProviderKey>, sources: Sources.Table, w: Weather, storeUp: bool) {
    MayRevoke(e, sources, w) && LeavesListed(e, before, w) && w.lives >= 3 && storeUp
  }

  lemma TargetedLeaves(e: Row, before: seq<ProviderKey>, w: Weather, p: ProviderKey)
    requires Target(before, e) == Some(p.id) && p in before && MatchesKey(p, e)
    requires w.token && w.scopes && w.list == Honest && w.lives >= 2
    ensures LeavesListed(e, before, w) <==> w.delete == Says404 || (w.delete == Honest && MatchesBut(before, e, p.id))
    ensures !Absent(before, e) && p.keyType == e.keyType
  {
    hide Target, MatchesBut, Hits;
  }

  lemma TargetedAttempt(e: Row, before: seq<ProviderKey>, p: ProviderKey)
    requires p in before && MatchesKey(p, e)
    ensures Attempted(e, before, before) && Attempted(e, before, Without(before, e.keyType, p.id))
  {
    WithoutOnlyLacks(before, e.keyType, p.id);
    hide Without, OnlyLacks, MatchesKey;
  }

  class Service {
    const keys: KeyStore
    const sources: SourceStore
    const provider: Provider

    constructor (keys: KeyStore, sources: SourceStore, provider: Provider)
      ensures this.keys == keys && this.sources == sources && this.provider == provider
    {
      this.keys, this.sources, this.provider := keys, sources, provider;
    }

    method Revoke(keyId: nat, w: Weather) returns (r: Ending, reports: seq<Progress>)
      requires keys.Valid()
      modifies keys, provider
      ensures keys.Valid()
      ensures keys.rows == old(keys.rows) || keys.rows == old(keys.rows) - {keyId}
      ensures keyId !in old(keys.rows) ==> r == NoSuchKey && provider.keys == old(provider.keys)
      ensures keyId in old(keys.rows) ==>
        var e := old(keys.rows)[keyId];
        Attempted(e, old(provider.keys), provider.keys)
      ensures r.NoSuchKey? <==> keyId !in old(keys.rows)
      ensures r.NotOwned? <==>
        && keyId in old(keys.rows) && old(keys.rows)[keyId].source in sources.rows
        && (|| w.account.None?
            || !SameButCase(w.account.value, sources.rows[old(keys.rows)[keyId].source].username)
            || !w.token)
      ensures r.NotOwned? ==> keys.rows == old(keys.rows) && provider.keys == old(provider.keys)
      ensures keyId !in keys.rows <==> r.Revoked? || r.NoSuchKey?
      ensures keyId in old(keys.rows) && (r.Revoked? || provider.keys != old(provider.keys)) ==>
        MayRevoke(old(keys.rows)[keyId], sources.rows, w)
      ensures (&& keyId in old(keys.rows) && MayRevoke(old(keys.rows)[keyId], sources.rows, w)
               && Smooth(w) && !keys.down(old(keys.calls))) ==>
        r.Revoked? && (r.alreadyGone <==> Target(old(provider.keys), old(keys.rows)[keyId]).None?)
      ensures keyId in old(keys.rows) ==>
        var e := old(keys.rows)[keyId];
        (keyId !in keys.rows && !Absent(provider.keys, e) <==>
          Dooms(e, old(provider.keys), sources.rows, w, !keys.down(old(keys.calls))))
      ensures r.Revoked? ==> exists name :: reports == RevokeReports(name)
      ensures exists name, n :: 0 <= n <= 4 && reports == RevokeReports(name)[..n]
    {
      reports := [Progress(0, 3, "Checking ownership")];
      assert reports == RevokeReports("")[..1];
      if keyId !in keys.rows {
        return NoSuchKey, reports;
      }
      var e := keys.rows[keyId];
      if e.source !in sources.rows {
        return Refused, reports;
      }
      var source := sources.rows[e.source];
      if w.account.Some? {
        EqualFoldExactly(w.account.value, source.username);
      }
      if w.account.None? || !EqualFold(w.account.value, source.username) {
        return NotOwned, reports;
      }
      reports := reports + [Progress(1, 3, "Deleting the key at " + source.provider)];
      assert reports == RevokeReports(source.provider)[..2];
      r := DeleteAtProvider(e, w);
      if !r.Revoked? {
        return;
      }
      reports := reports + [Progress(2, 3, "Removing it from SShark")];
      assert reports == RevokeReports(source.provider)[..3];
      if w.lives < 3 {
        return Died, reports;
      }
      var call := keys.calls;
      var deleted := keys.Delete(keyId);
      if !deleted && keys.down(call) {
        return Refused, reports;
      }
      reports := reports + [Progress(3, 3, "Done")];
      assert reports == RevokeReports(source.provider) == RevokeReports(source.provider)[..4];
    }

    /** Attempts on one key, with the provider's keys changing in between: at no point is the
        local row gone while the provider still lists the key. */
    method Rerun(keyId: nat, script: seq<Event>) returns (ghost scenes: seq<Scene>)
      requires keys.Valid() && keyId in keys.rows
      modifies keys, provider
      ensures keys.Valid()
      ensures var e := old(keys.rows)[keyId];
        && Follows(e, sources.rows, script, scenes)
        && scenes[0] == Scene(true, old(provider.keys), !keys.down(old(keys.calls)))
        && scenes[|script|] == Scene(keyId in keys.rows, provider.keys, !keys.down(keys.calls))
        && ((forall i :: 0 <= i <= |script| ==> Safe(e, scenes[i])) <==>
            (forall i :: 0 <= i < |script| ==> !Culprit(e, sources.rows, script[i], scenes[i])))
        && (Sound(old(provider.keys), e) && Fair(e, script, scenes) ==>
            forall i :: 0 <= i <= |script| ==> Safe(e, scenes[i]))
    {
      ghost var e := keys.rows[keyId];
      hide Attempted, Sound, Absent, Undisturbed, OnePerSource, MayRevoke, RevokeReports, Dooms, Target;
      scenes := [Scene(true, provider.keys, !keys.down(keys.calls))];
      for i := 0 to |script|
        invariant keys.Valid() && |scenes| == i + 1 && Follows(e, sources.rows, script[..i], scenes)
        invariant scenes[0] == Scene(true, old(provider.keys), !keys.down(old(keys.calls)))
        invariant scenes[i] == Scene(keyId in keys.rows, provider.keys, !keys.down(keys.calls))
        invariant keyId in keys.rows ==> keys.rows[keyId] == e
      {
        match script[i] {
          case Attempt(w) =>
            var r, reports := Revoke(keyId, w);
          case Change(now) =>
            provider.keys := now;
        }
        ghost var scene := Scene(keyId in keys.rows, provider.keys, !keys.down(keys.calls));
        FollowsOn(e, sources.rows, script[..i], scenes, script[i], scene);
        assert script[..i + 1] == script[..i] + [script[i]];
        scenes := scenes + [scene];
      }
      assert script[..|script|] == script;
      SafeExactly(e, sources.rows, script, scenes);
      if Sound(old(provider.keys), e) && Fair(e, script, scenes) {
        forall i | 0 <= i <= |script|
          ensures Safe(e, scenes[i])
        {
          NeverAhead(e, sources.rows, script, scenes, i);
        }
      }
    }

    /** Delete the key where it is published, unless it is already gone there. */
    method DeleteAtProvider(e: Row, w: Weather) returns (r: Ending)
      modifies provider
      ensures r.Revoked? || r.NotOwned? || r.Refused? || r.Died?
      ensures r.NotOwned? <==> !w.token
      ensures r.NotOwned? ==> provider.keys == old(provider.keys)
      ensures Attempted(e, old(provider.keys), provider.keys)
      ensures r.Revoked? && !Absent(provider.keys, e) <==> LeavesListed(e, old(provider.keys), w)
      ensures Smooth(w) ==> r.Revoked? && (r.alreadyGone <==> Target(old(provider.keys), e).None?)
    {
      ghost var before := provider.keys;
      if !w.token {
        return NotOwned;
      }
      if !w.scopes {
        return Refused;
      }
      if w.lives < 1 {
        return Died;
      }
      var listing := provider.ListKeys(e.keyType, w.list);
      if listing.ListFailed? {
        return Refused;
      }
      if listing.NotThere? {
        return Revoked(true);
      }
      var id := ResolveProviderKeyId(listing.keys, e);
      ListedMatches(before, e, listing.keys, id);
      assert id == Target(before, e);
      hide OfType, Hits, Without, Target, ByPrint, HasId, FirstPage, Resolved, OnlyLacks;
      if id.None? {
        return Revoked(true);
      }
      if w.lives < 2 {
        return Died;
      }
      ghost var p :| p in before && p.id == id.value && MatchesKey(p, e);
      TargetedLeaves(e, before, w, p);
      hide LeavesListed, Absent, MatchesKey, MatchesBut, Attempted;
      var deletion := provider.DeleteKey(e.keyType, id.value, w.delete);
      DeletedIsAbsent(before, e, p);
      TargetedAttempt(e, before, p);
      assert IsKey(p, e.keyType, id.value);
      match deletion
      case Deleted => r := Revoked(false);
      case Gone => r := Revoked(true);
      case DeleteFailed => r := Refused;
    }
  }

  /** Attempts repeated, with other keys coming and going at the provider in between. */
  datatype Event = Attempt(w: Weather) | Change(keys: seq<ProviderKey>)

  /** up says whether the store would take the next call. */
  datatype Scene = Scene(stored: bool, listed: seq<ProviderKey>, up: bool)

  /** What one attempt makes of a scene. */
  predicate Tried(e: Row, sources: Sources.Table, a: Scene, b: Scene, w: Weather) {
    if a.stored then
      && Attempted(e, a.listed, b.listed)
      && (!b.stored && !Absent(b.listed, e) <==> Dooms(e, a.listed, sources, w, a.up))
    else !b.stored && b.listed == a.listed
  }

  predicate Happened(e: Row, sources: Sources.Table, event: Event, a: Scene, b: Scene) {
    match event
    case Attempt(w) => Tried(e, sources, a, b, w)
    case Change(keys) => b == a.(listed := keys)
  }

  /** What each event of a script did. */
  predicate Follows(e: Row, sources: Sources.Table, script: seq<Event>, scenes: seq<Scene>) {
    && |scenes| == |script| + 1
    && forall i :: 0 <= i < |script| ==> Happened(e, sources, script[i], scenes[i], scenes[i + 1])
  }

  /** The local row is gone only when the provider's key is. */
  predicate Safe(e: Row, s: Scene) {
    !s.stored ==> Absent(s.listed, e)
  }

  /** The events that part the two: a revocation that drops the row of a listed key, or a
      matching key published once the row is gone. */
  predicate Culprit(e: Row, sources: Sources.Table, event: Event, a: Scene) {
    match event
    case Attempt(w) => a.stored && Dooms(e, a.listed, sources, w, a.up)
    case Change(keys) => !a.stored && Absent(a.listed, e) && !Absent(keys, e)
  }

  lemma FollowsOn(e: Row, sources: Sources.Table, script: seq<Event>, scenes: seq<Scene>, event: Event, scene: Scene)
    requires Follows(e, sources, script, scenes) && Happened(e, sources, event, scenes[|script|], scene)
    ensures Follows(e, sources, script + [event], scenes + [scene])
  {
    hide Happened;
  }

  lemma CulpritStep(e: Row, sources: Sources.Table, event: Event, a: Scene, b: Scene)
    requires Happened(e, sources, event, a, b)
    ensures Safe(e, a) ==> (Safe(e, b) <==> !Culprit(e, sources, event, a))
    ensures Culprit(e, sources, event, a) ==> !Safe(e, b)
  {
    hide Absent, Dooms, Attempted;
  }

  lemma {:induction false} SafeUpTo(e: Row, sources: Sources.Table, script: seq<Event>, scenes: seq<Scene>, n: nat)
    requires Follows(e, sources, script, scenes) && scenes[0].stored && n <= |script|
    requires forall i :: 0 <= i < n ==> !Culprit(e, sources, script[i], scenes[i])
    ensures Safe(e, scenes[n])
  {
    hide Happened, Culprit;
    if n > 0 {
      SafeUpTo(e, sources, script, scenes, n - 1);
      CulpritStep(e, sources, script[n - 1], scenes[n - 1], scenes[n]);
    }
  }

  /** Whatever attempts are made, crash and are retried, and whatever happens at the provider
      in between: the local row is never gone while the provider lists the key exactly when no
      event is a culprit. */
  lemma SafeExactly(e: Row, sources: Sources.Table, script: seq<Event>, scenes: seq<Scene>)
    requires Follows(e, sources, script, scenes) && scenes[0].stored
    ensures (forall i :: 0 <= i <= |script| ==> Safe(e, scenes[i])) <==>
      (forall i :: 0 <= i < |script| ==> !Culprit(e, sources, script[i], scenes[i]))
  {
    hide Happened, Culprit, Safe;
    if i :| 0 <= i < |script| && Culprit(e, sources, script[i], scenes[i]) {
      CulpritStep(e, sources, script[i], scenes[i], scenes[i + 1]);
      assert !Safe(e, scenes[i + 1]);
    }
    if forall i :: 0 <= i < |script| ==> !Culprit(e, sources, script[i], scenes[i]) {
      forall n | 0 <= n <= |script|
        ensures Safe(e, scenes[n])
      {
        SafeUpTo(e, sources, script, scenes, n);
      }
    }
  }

  /** Nobody adds a matching key, or more keys than a page. */
  predicate Undisturbed(e: Row, a: Scene, b: Scene) {
    && b.stored == a.stored
    && (forall p :: p in b.listed && MatchesKey(p, e) ==> p in a.listed)
    && |OfType(b.listed, e.keyType)| <= 100
  }

  /** The provider says 404 only where that is true, and nothing is added there. */
  predicate Fair(e: Row, script: seq<Event>, scenes: seq<Scene>)
    requires |scenes| == |script| + 1
  {
    forall i :: 0 <= i < |script| ==>
      match script[i]
      case Attempt(w) => Misled(w) ==> Absent(scenes[i].listed, e)
      case Change(_) => Undisturbed(e, scenes[i], scenes[i + 1])
  }

  lemma {:induction false} OfTypeShrinks(keys: seq<ProviderKey>, k: KeyType, t: KeyType, id: string)
    ensures |OfType(Without(keys, t, id), k)| <= |OfType(keys, k)|
  {
    if keys != [] {
      OfTypeShrinks(keys[1..], k, t, id);
      var rest := Without(keys[1..], t, id);
      if IsKey(keys[0], t, id) {
        assert Without(keys, t, id) == rest;
      } else {
        assert Without(keys, t, id) == [keys[0]] + rest && ([keys[0]] + rest)[1..] == rest;
      }
    }
  }

  /** Keys taken away leave the rest sound. */
  lemma StaysSound(e: Row, a: Scene, b: Scene)
    requires Sound(a.listed, e) && (Undisturbed(e, a, b) || Attempted(e, a.listed, b.listed))
    ensures Sound(b.listed, e)
  {
    hide OfType, MatchesKey, Without;
    if !Undisturbed(e, a, b) && b.listed != a.listed {
      var p :| p in a.listed && MatchesKey(p, e) && b.listed == Without(a.listed, e.keyType, p.id);
      OfTypeShrinks(a.listed, e.keyType, e.keyType, p.id);
      forall q | q in b.listed
        ensures q in a.listed
      {
        WithoutHas(a.listed, e.keyType, p.id, q);
      }
    }
  }

  lemma FairStep(e: Row, sources: Sources.Table, event: Event, a: Scene, b: Scene)
    requires Happened(e, sources, event, a, b) && Sound(a.listed, e)
    requires match event
      case Attempt(w) => Misled(w) ==> Absent(a.listed, e)
      case Change(_) => Undisturbed(e, a, b)
    ensures Sound(b.listed, e) && !Culprit(e, sources, event, a)
  {
    if event.Attempt? {
      LeavesExactly(e, a.listed, event.w);
      hide Sound, LeavesListed;
      if b.listed != a.listed {
        StaysSound(e, a, b);
      }
    } else {
      StaysSound(e, a, b);
      hide Sound;
    }
  }

  /** So with a provider that lists all its keys at once, no two of them matching, and says 404
      only where that is true. */
  lemma {:induction false} NeverAhead(e: Row, sources: Sources.Table, script: seq<Event>, scenes: seq<Scene>, n: nat)
    requires Follows(e, sources, script, scenes) && Fair(e, script, scenes) && n <= |script|
    requires scenes[0].stored && Sound(scenes[0].listed, e)
    ensures Safe(e, scenes[n]) && Sound(scenes[n].listed, e)
  {
    hide Sound, Undisturbed, Happened, Culprit, Absent;
    if n > 0 {
      NeverAhead(e, sources, script, scenes, n - 1);
      FairStep(e, sources, script[n - 1], scenes[n - 1], scenes[n]);
      CulpritStep(e, sources, script[n - 1], scenes[n - 1], scenes[n]);
    }
  }
}

/** One user's scrape, and the refresh of every account a user has connected. */
module Scrape {
  import opened Text
  import opened Keys
  import opened KeyStore
  import opened Sync
  import opened Sources

  /** What fetching one type of key gives: a list, possibly empty, or a failure. */
  datatype Fetch = Listing(keys: seq<Fetched>) | RateLimited | FetchFailed

  datatype User = User(userId: string, username: string, uri: string)

  datatype ScrapeResult = ScrapeResult(counts: Counts, failed: bool)

  function KeysOf(f: Fetch): (keys: seq<Fetched>)
    ensures f.Listing? ==> keys == f.keys
    ensures !f.Listing? ==> keys == []
  {
    if f.Listing? then f.keys else []
  }

  function FetchOf(k: KeyType, ssh: Fetch, gpg: Fetch): Fetch {
    if k == SSH then ssh else gpg
  }

  /** The rows of one type are the same before and after. */
  predicate SameOfType(a: Rows, b: Rows, k: KeyType) {
    && (forall id :: id in a && a[id].keyType == k ==> id in b && b[id] == a[id])
    && (forall id :: id in b && b[id].keyType == k ==> id in a && a[id] == b[id])
  }

  /** Every row gone was of the source, of a type whose fetch listed keys, and not listed. */
  predicate Evidenced(a: Rows, b: Rows, source: nat, ssh: Fetch, gpg: Fetch) {
    forall id :: id in a && id !in b ==>
      && a[id].source == source && a[id].fingerprint != ""
      && var f := FetchOf(a[id].keyType, ssh, gpg);
      f.Listing? && f.keys != [] && a[id].fingerprint !in Seen(f.keys)
  }

  predicate Conserved(a: Rows, b: Rows, c: Counts) {
    |b| + c.removed == |a| + c.added
  }

  /** The rows of one type. */
  function RowsOf(rows: Rows, k: KeyType): Rows {
    map id | id in rows && rows[id].keyType == k :: rows[id]
  }

  /** The counts are the rows of each type that came, that went and, with distinct keys, that
      stayed with other content. */
  predicate Counted(a: Rows, b: Rows, c: Counts, distinct: bool) {
    && c.added == |Gained(a, b, SSH)| + |Gained(a, b, GPG)|
    && c.removed == |Gained(b, a, SSH)| + |Gained(b, a, GPG)|
    && (distinct ==> c.updated == |Changed(RowsOf(a, SSH), RowsOf(b, SSH))| + |Changed(RowsOf(a, GPG), RowsOf(b, GPG))|)
  }

  function Gained(a: Rows, b: Rows, k: KeyType): set<nat> {
    RowsOf(b, k).Keys - RowsOf(a, k).Keys
  }

  /** What one pass counts. */
  predicate PassCounted(a: Rows, b: Rows, c: Counts, k: KeyType, distinct: bool) {
    && SameOfType(a, b, Other(k))
    && c.added == |Gained(a, b, k)| && c.removed == |Gained(b, a, k)|
    && (distinct ==> c.updated == |Changed(RowsOf(a, k), RowsOf(b, k))|)
  }

  lemma SameRows(a: Rows, b: Rows, k: KeyType)
    requires SameOfType(a, b, k)
    ensures RowsOf(a, k) == RowsOf(b, k)
  {}

  lemma OfOneType(a: Rows, b: Rows, k: KeyType)
    requires SameOfType(a, b, Other(k)) && forall id :: id in a && id in b ==> a[id].keyType == b[id].keyType
    ensures Gained(a, b, k) == b.Keys - a.Keys && Gained(b, a, k) == a.Keys - b.Keys
    ensures Changed(RowsOf(a, k), RowsOf(b, k)) == Changed(a, b)
  {}

  lemma ReconcilesCounts(a: Rows, b: Rows, fetched: seq<Fetched>, c: Counts, source: nat, k: KeyType)
    requires Reconciles(a, b, fetched, c, source, k)
    requires DistinctKeys(fetched) ==> c.updated == |Changed(a, b)|
    ensures PassCounted(a, b, c, k, DistinctKeys(fetched))
  {
    TypeStays(a, b, fetched, c, source, k);
    hide Seen, Claimed, SameOfType, DistinctKeys, Contents, Of, Gained, Changed;
    OfOneType(a, b, k);
  }

  lemma NothingCounts(a: Rows, distinct: bool)
    ensures Counted(a, a, NOTHING, distinct) && forall k :: PassCounted(a, a, NOTHING, k, distinct)
  {
    assert forall k :: Changed(RowsOf(a, k), RowsOf(a, k)) == {};
  }

  lemma PassesCount(a: Rows, m: Rows, b: Rows, c: Counts, d: Counts, ssh: bool, gpg: bool)
    requires PassCounted(a, m, c, SSH, ssh) && PassCounted(m, b, d, GPG, gpg)
    ensures Counted(a, b, Plus(c, d), ssh && gpg)
  {
    hide *;
    PassIs(a, m, c, SSH, ssh);
    PassIs(m, b, d, GPG, gpg);
    SameGain(a, m, b, SSH);
    SameGain(a, m, b, GPG);
    SumsCount(a, b, c, d, ssh, gpg);
  }

  lemma PassIs(a: Rows, b: Rows, c: Counts, k: KeyType, distinct: bool)
    requires PassCounted(a, b, c, k, distinct)
    ensures SameOfType(a, b, Other(k)) && Other(SSH) == GPG && Other(GPG) == SSH
    ensures c.added == |Gained(a, b, k)| && c.removed == |Gained(b, a, k)|
    ensures distinct ==> c.updated == |Changed(RowsOf(a, k), RowsOf(b, k))|
  {}

  /** A type one of two passes leaves alone gains and loses what the other pass makes it. */
  lemma SameGain(a: Rows, m: Rows, b: Rows, k: KeyType)
    ensures SameOfType(m, b, k) ==>
      && Gained(a, b, k) == Gained(a, m, k) && Gained(b, a, k) == Gained(m, a, k)
      && Changed(RowsOf(a, k), RowsOf(b, k)) == Changed(RowsOf(a, k), RowsOf(m, k))
    ensures SameOfType(a, m, k) ==>
      && Gained(a, b, k) == Gained(m, b, k) && Gained(b, a, k) == Gained(b, m, k)
      && Changed(RowsOf(a, k), RowsOf(b, k)) == Changed(RowsOf(m, k), RowsOf(b, k))
  {
    hide SameOfType, RowsOf, Changed;
    if SameOfType(m, b, k) {
      SameRows(m, b, k);
    }
    if SameOfType(a, m, k) {
      SameRows(a, m, k);
    }
  }

  lemma SumsCount(a: Rows, b: Rows, c: Counts, d: Counts, ssh: bool, gpg: bool)
    requires c.added == |Gained(a, b, SSH)| && c.removed == |Gained(b, a, SSH)|
    requires d.added == |Gained(a, b, GPG)| && d.removed == |Gained(b, a, GPG)|
    requires ssh ==> c.updated == |Changed(RowsOf(a, SSH), RowsOf(b, SSH))|
    requires gpg ==> d.updated == |Changed(RowsOf(a, GPG), RowsOf(b, GPG))|
    ensures Counted(a, b, Plus(c, d), ssh && gpg)
  {
    hide Gained, Changed, RowsOf;
  }

  lemma SetBalance(a: set<nat>, b: set<nat>)
    ensures |b| + |a - b| == |a| + |b - a|
  {
    assert a == (a * b) + (a - b);
    assert b == (a * b) + (b - a);
  }

  lemma TypeStays(a: Rows, b: Rows, fetched: seq<Fetched>, c: Counts, source: nat, k: KeyType)
    requires Reconciles(a, b, fetched, c, source, k)
    ensures SameOfType(a, b, Other(k))
  {
    hide Seen, Claimed;
  }

  lemma ReconcilesConserves(a: Rows, b: Rows, fetched: seq<Fetched>, c: Counts, source: nat, k: KeyType)
    requires Reconciles(a, b, fetched, c, source, k)
    ensures Conserved(a, b, c) && SameOfType(a, b, Other(k))
  {
    TypeStays(a, b, fetched, c, source, k);
    KeyCount(a);
    KeyCount(b);
    SetBalance(a.Keys, b.Keys);
    hide Seen, Claimed, SameOfType, SameKey, Of;
  }

  /** What one pass removes, and that the rest keep who they are. */
  predicate Removes(a: Rows, b: Rows, fetched: seq<Fetched>, source: nat, k: KeyType) {
    && (forall id :: id in a && id !in b ==>
        Of(a[id], source, k) && a[id].fingerprint != "" && a[id].fingerprint !in Seen(fetched))
    && (forall id :: id in a && id in b ==> SameKey(a[id], b[id]))
  }

  lemma ReconcilesRemoves(a: Rows, b: Rows, fetched: seq<Fetched>, c: Counts, source: nat, k: KeyType)
    requires Reconciles(a, b, fetched, c, source, k)
    ensures Removes(a, b, fetched, source, k)
  {
    hide Seen, Claimed;
  }

  lemma RemovesTwice(a: Rows, m: Rows, b: Rows, ssh: seq<Fetched>, gpg: seq<Fetched>, source: nat)
    requires ssh != [] && gpg != []
    requires Removes(a, m, ssh, source, SSH) && Removes(m, b, gpg, source, GPG)
    ensures Evidenced(a, b, source, Listing(ssh), Listing(gpg))
  {
    hide Seen;
  }

  lemma TwoPasses(a: Rows, m: Rows, b: Rows, ssh: seq<Fetched>, gpg: seq<Fetched>, c: Counts, d: Counts, source: nat)
    requires ssh != [] && gpg != []
    requires Reconciles(a, m, ssh, c, source, SSH) && Reconciles(m, b, gpg, d, source, GPG)
    ensures Evidenced(a, b, source, Listing(ssh), Listing(gpg)) && Conserved(a, b, Plus(c, d))
  {
    ReconcilesConserves(a, m, ssh, c, source, SSH);
    ReconcilesConserves(m, b, gpg, d, source, GPG);
    ReconcilesRemoves(a, m, ssh, c, source, SSH);
    ReconcilesRemoves(m, b, gpg, d, source, GPG);
    RemovesTwice(a, m, b, ssh, gpg, source);
    hide Reconciles, SameOfType, Evidenced, Removes;
  }

  lemma OnePass(a: Rows, b: Rows, fetched: seq<Fetched>, c: Counts, source: nat, k: KeyType, ssh: Fetch, gpg: Fetch)
    requires fetched != [] && Reconciles(a, b, fetched, c, source, k) && FetchOf(k, ssh, gpg) == Listing(fetched)
    ensures Evidenced(a, b, source, ssh, gpg) && Conserved(a, b, c)
  {
    ReconcilesConserves(a, b, fetched, c, source, k);
    ReconcilesRemoves(a, b, fetched, c, source, k);
    hide Reconciles, Seen, SameOfType, Conserved;
  }

  /** For each type that was listed, the source's stored fingerprints are the listed ones, but
      for those the other type holds: an SSH key gives way to a GPG key that was there before,
      a GPG key to any SSH key. */
  ghost predicate Mirrors(a: Rows, b: Rows, source: nat, ssh: seq<Fetched>, gpg: seq<Fetched>) {
    forall fp :: fp != "" ==>
      && (ssh != [] ==> (Holds(b, source, SSH, fp) <==> fp in Seen(ssh) && !Holds(a, source, GPG, fp)))
      && (gpg != [] ==> (Holds(b, source, GPG, fp) <==> fp in Seen(gpg) && !Holds(b, source, SSH, fp)))
  }

  /** Few enough rows of both types for one search to list them. */
  predicate Few(rows: Rows, source: nat) {
    |Matching(rows, source, SSH)| <= 1000 && |Matching(rows, source, GPG)| <= 1000
  }

  lemma SameHolds(a: Rows, b: Rows, source: nat, k: KeyType, fp: string)
    requires SameOfType(a, b, k)
    ensures Holds(a, source, k, fp) <==> Holds(b, source, k, fp)
  {
    if Holds(a, source, k, fp) {
      var id :| id in a && Of(a[id], source, k) && a[id].fingerprint == fp;
      assert id in b && b[id] == a[id];
    }
    if Holds(b, source, k, fp) {
      var id :| id in b && Of(b[id], source, k) && b[id].fingerprint == fp;
      assert id in a && a[id] == b[id];
    }
  }

  lemma SameMatching(a: Rows, b: Rows, source: nat, k: KeyType)
    requires SameOfType(a, b, k)
    ensures Matching(a, source, k) == Matching(b, source, k)
  {}

  lemma MirrorTwo(a: Rows, m: Rows, b: Rows, source: nat, ssh: seq<Fetched>, gpg: seq<Fetched>)
    requires if ssh == [] then m == a else Matches(a, m, ssh, source, SSH)
    requires if gpg == [] then b == m else Matches(m, b, gpg, source, GPG)
    requires SameOfType(m, b, SSH)
    ensures Mirrors(a, b, source, ssh, gpg)
  {
    hide Holds, SameOfType, Seen;
    forall fp | fp != ""
      ensures ssh != [] ==> (Holds(b, source, SSH, fp) <==> fp in Seen(ssh) && !Holds(a, source, GPG, fp))
      ensures gpg != [] ==> (Holds(b, source, GPG, fp) <==> fp in Seen(gpg) && !Holds(b, source, SSH, fp))
    {
      SameHolds(m, b, source, SSH, fp);
    }
  }

  lemma Nothing(a: Rows, source: nat, ssh: Fetch, gpg: Fetch)
    ensures Evidenced(a, a, source, ssh, gpg) && Conserved(a, a, NOTHING)
    ensures SameOfType(a, a, SSH) && SameOfType(a, a, GPG)
  {}

  predicate IsOf(s: Source, provider: string, user: User) {
    s.provider == provider && s.userId == user.userId
  }

  class UserScraper {
    const sources: SourceStore
    const scraper: Scraper

    constructor (sources: SourceStore, scraper: Scraper)
      ensures this.sources == sources && this.scraper == scraper
    {
      this.sources, this.scraper := sources, scraper;
    }

    ghost predicate Valid()
      reads sources, scraper.keys
    {
      sources.Valid() && scraper.keys.Valid()
    }

    /** The user's source: found by provider and user id, or created. */
    method GetOrCreateSource(provider: string, user: User) returns (id: Option<nat>)
      requires sources.Valid()
      modifies sources
      ensures sources.Valid() && sources.calls >= old(sources.calls)
      ensures id.Some? ==> id.value in sources.rows && IsOf(sources.rows[id.value], provider, user)
      ensures sources.UpSince(old(sources.calls)) ==>
        id.Some? && sources.rows[id.value].username == user.username && sources.rows[id.value].uri == user.uri
      ensures forall i :: i in old(sources.rows) ==>
        && i in sources.rows && sources.rows[i].profile == old(sources.rows)[i].profile
        && (IsOf(old(sources.rows)[i], provider, user) || sources.rows[i] == old(sources.rows)[i])
    {
      var found := sources.GetByProviderAndUserId(provider, user.userId);
      match found
      case Found(i) =>
        if sources.rows[i].username != user.username || sources.rows[i].uri != user.uri {
          var updated := sources.Update(i, user.username, user.uri);
        }
        id := Some(i);
      case Failed => id := None;
      case NotFound => id := sources.Create(provider, user.userId, user.username, user.uri);
    }

    /** A stored key goes only on the evidence of a successful, non-empty fetch of its type. */
    method ProcessUser(provider: string, user: User, ssh: Fetch, gpg: Fetch)
      returns (r: ScrapeResult, source: Option<nat>)
      requires Valid()
      modifies sources, scraper.keys
      ensures Valid() && sources.calls >= old(sources.calls) && scraper.keys.calls >= old(scraper.keys.calls)
      ensures Conserved(old(scraper.keys.rows), scraper.keys.rows, r.counts)
      ensures Counted(old(scraper.keys.rows), scraper.keys.rows, r.counts,
        DistinctKeys(KeysOf(ssh)) && DistinctKeys(KeysOf(gpg)))
      ensures scraper.keys.done == Plus(old(scraper.keys.done), r.counts)
      ensures source.None? ==> scraper.keys.rows == old(scraper.keys.rows)
      ensures source.Some? ==>
        && source.value in sources.rows && IsOf(sources.rows[source.value], provider, user)
        && Evidenced(old(scraper.keys.rows), scraper.keys.rows, source.value, ssh, gpg)
      ensures forall k :: ssh == RateLimited || KeysOf(FetchOf(k, ssh, gpg)) == [] ==>
        SameOfType(old(scraper.keys.rows), scraper.keys.rows, k)
      ensures ssh == RateLimited || (KeysOf(ssh) == [] && KeysOf(gpg) == []) ==> source.None?
      ensures sources.UpSince(old(sources.calls)) ==>
        (source.Some? <==> ssh != RateLimited && (KeysOf(ssh) != [] || KeysOf(gpg) != []))
      ensures (&& source.Some? && scraper.keys.UpSince(old(scraper.keys.calls))
               && Few(old(scraper.keys.rows), source.value)) ==>
        && Mirrors(old(scraper.keys.rows), scraper.keys.rows, source.value, KeysOf(ssh), KeysOf(gpg))
        && (DistinctKeys(KeysOf(ssh)) ==> Current(scraper.keys.rows, KeysOf(ssh), source.value, SSH))
        && (DistinctKeys(KeysOf(gpg)) ==> Current(scraper.keys.rows, KeysOf(gpg), source.value, GPG))
      ensures r.failed <==> !ssh.Listing? || (KeysOf(ssh) + KeysOf(gpg) != [] && source.None?)
    {
      ghost var rows := scraper.keys.rows;
      r, source := ScrapeResult(NOTHING, false), None;
      Nothing(rows, 0, ssh, gpg);
      NothingCounts(rows, DistinctKeys(KeysOf(ssh)) && DistinctKeys(KeysOf(gpg)));
      PlusSums(scraper.keys.done, NOTHING, NOTHING);
      hide Counted, DistinctKeys, Plus;
      if ssh == RateLimited {
        return ScrapeResult(NOTHING, true), None;
      }
      if ssh == FetchFailed {
        r := r.(failed := true);
      }
      var sshKeys, gpgKeys := KeysOf(ssh), KeysOf(gpg);
      if |sshKeys| == 0 && |gpgKeys| == 0 {
        return;
      }
      source := GetOrCreateSource(provider, user);
      if source.None? {
        return ScrapeResult(NOTHING, true), None;
      }
      var c, d := SyncBoth(source.value, sshKeys, gpgKeys);
      BothPasses(rows, scraper.keys.rows, ssh, gpg, Plus(c, d), source.value);
      r := r.(counts := Plus(c, d));
    }

    /** SSH keys first, then GPG keys; an empty list is not a list of no keys. */
    method SyncBoth(source: nat, ssh: seq<Fetched>, gpg: seq<Fetched>) returns (c: Counts, d: Counts)
      requires scraper.keys.Valid() && (ssh != [] || gpg != [])
      modifies scraper.keys
      ensures scraper.keys.Valid() && scraper.keys.calls >= old(scraper.keys.calls)
      ensures BothSynced(old(scraper.keys.rows), scraper.keys.rows, source, ssh, gpg, Plus(c, d))
      ensures Counted(old(scraper.keys.rows), scraper.keys.rows, Plus(c, d), DistinctKeys(ssh) && DistinctKeys(gpg))
      ensures scraper.keys.done == Plus(old(scraper.keys.done), Plus(c, d))
      ensures scraper.keys.UpSince(old(scraper.keys.calls)) && Few(old(scraper.keys.rows), source) ==>
        && Mirrors(old(scraper.keys.rows), scraper.keys.rows, source, ssh, gpg)
        && (DistinctKeys(ssh) ==> Current(scraper.keys.rows, ssh, source, SSH))
        && (DistinctKeys(gpg) ==> Current(scraper.keys.rows, gpg, source, GPG))
    {
      ghost var rows := scraper.keys.rows;
      hide *;
      c := SyncType(source, ssh, SSH);
      ghost var mid := scraper.keys.rows;
      d := SyncType(source, gpg, GPG);
      BothPassed(rows, mid, scraper.keys.rows, source, ssh, gpg, c, d);
      BothCurrent(mid, scraper.keys.rows, ssh, gpg, d, source);
      PassesCount(rows, mid, scraper.keys.rows, c, d, DistinctKeys(ssh), DistinctKeys(gpg));
      PlusSums(old(scraper.keys.done), c, d);
    }

    method SyncType(source: nat, fetched: seq<Fetched>, k: KeyType) returns (c: Counts)
      requires scraper.keys.Valid()
      modifies scraper.keys
      ensures scraper.keys.Valid() && scraper.keys.calls >= old(scraper.keys.calls)
      ensures Passed(old(scraper.keys.rows), scraper.keys.rows, fetched, c, source, k)
      ensures PassCounted(old(scraper.keys.rows), scraper.keys.rows, c, k, DistinctKeys(fetched))
      ensures scraper.keys.done == Plus(old(scraper.keys.done), c)
      ensures (&& scraper.keys.UpSince(old(scraper.keys.calls))
               && |Matching(old(scraper.keys.rows), source, k)| <= 1000) ==>
        && Mirrored(old(scraper.keys.rows), scraper.keys.rows, fetched, source, k)
        && (DistinctKeys(fetched) ==> Current(scraper.keys.rows, fetched, source, k))
    {
      hide Agrees, AgreedStay, Reconciles, Matches, Settled, DistinctKeys, OnePerSource, Changed, PassCounted, Plus;
      c := NOTHING;
      ghost var rows := scraper.keys.rows;
      if |fetched| > 0 {
        c := scraper.SyncKeys(source, fetched, k);
        ReconcilesCounts(rows, scraper.keys.rows, fetched, c, source, k);
      } else {
        NothingCounts(rows, DistinctKeys(fetched));
        PlusRemoved(scraper.keys.done, NOTHING, 0);
      }
    }
  }

  lemma PlusSums(a: Counts, b: Counts, c: Counts)
    ensures Plus(Plus(a, b), c) == Plus(a, Plus(b, c)) && Plus(a, NOTHING) == a
  {}

  /** One type's part: nothing for an empty list. */
  predicate Passed(a: Rows, b: Rows, fetched: seq<Fetched>, c: Counts, source: nat, k: KeyType) {
    if fetched == [] then b == a && c == NOTHING else Reconciles(a, b, fetched, c, source, k)
  }

  ghost predicate Mirrored(a: Rows, b: Rows, fetched: seq<Fetched>, source: nat, k: KeyType) {
    if fetched == [] then b == a else Matches(a, b, fetched, source, k)
  }

  /** The second pass leaves the first one's rows as current as they were. */
  lemma BothCurrent(m: Rows, b: Rows, ssh: seq<Fetched>, gpg: seq<Fetched>, d: Counts, source: nat)
    requires Passed(m, b, gpg, d, source, GPG)
    ensures Current(m, ssh, source, SSH) ==> Current(b, ssh, source, SSH)
  {
    PassedKeeps(m, b, gpg, d, source, GPG);
    hide Passed, Agrees;
  }

  lemma PassedKeeps(a: Rows, b: Rows, fetched: seq<Fetched>, c: Counts, source: nat, k: KeyType)
    requires Passed(a, b, fetched, c, source, k)
    ensures SameOfType(a, b, Other(k)) && Conserved(a, b, c)
    ensures fetched == [] ==> SameOfType(a, b, k)
    ensures Matching(a, source, Other(k)) == Matching(b, source, Other(k))
  {
    if fetched != [] {
      ReconcilesConserves(a, b, fetched, c, source, k);
    }
    hide Reconciles;
    SameMatching(a, b, source, Other(k));
  }

  lemma SameTwice(a: Rows, m: Rows, b: Rows, k: KeyType)
    requires SameOfType(a, m, k) && SameOfType(m, b, k)
    ensures SameOfType(a, b, k)
  {}

  lemma PassedEvidence(a: Rows, m: Rows, b: Rows, source: nat, ssh: seq<Fetched>, gpg: seq<Fetched>, c: Counts,
      d: Counts)
    requires ssh != [] || gpg != []
    requires Passed(a, m, ssh, c, source, SSH) && Passed(m, b, gpg, d, source, GPG)
    ensures Evidenced(a, b, source, Listing(ssh), Listing(gpg)) && Conserved(a, b, Plus(c, d))
  {
    hide Evidenced, Conserved, Reconciles;
    if ssh == [] {
      OnePass(m, b, gpg, d, source, GPG, Listing(ssh), Listing(gpg));
    } else if gpg == [] {
      OnePass(a, m, ssh, c, source, SSH, Listing(ssh), Listing(gpg));
    } else {
      TwoPasses(a, m, b, ssh, gpg, c, d, source);
    }
  }

  lemma BothPassed(a: Rows, m: Rows, b: Rows, source: nat, ssh: seq<Fetched>, gpg: seq<Fetched>, c: Counts, d: Counts)
    requires ssh != [] || gpg != []
    requires Passed(a, m, ssh, c, source, SSH) && Passed(m, b, gpg, d, source, GPG)
    ensures BothSynced(a, b, source, ssh, gpg, Plus(c, d))
    ensures Matching(a, source, GPG) == Matching(m, source, GPG)
    ensures Mirrored(a, m, ssh, source, SSH) && Mirrored(m, b, gpg, source, GPG) ==> Mirrors(a, b, source, ssh, gpg)
  {
    PassedKeeps(a, m, ssh, c, source, SSH);
    PassedKeeps(m, b, gpg, d, source, GPG);
    PassedEvidence(a, m, b, source, ssh, gpg, c, d);
    hide Passed, Plus, Evidenced, Conserved, SameOfType, Matching, Matches, Mirrors;
    if ssh == [] {
      SameTwice(a, m, b, SSH);
    }
    if gpg == [] {
      SameTwice(a, m, b, GPG);
    }
    if Mirrored(a, m, ssh, source, SSH) && Mirrored(m, b, gpg, source, GPG) {
      MirrorTwo(a, m, b, source, ssh, gpg);
    }
  }

  predicate BothSynced(a: Rows, b: Rows, source: nat, ssh: seq<Fetched>, gpg: seq<Fetched>, c: Counts) {
    && Evidenced(a, b, source, Listing(ssh), Listing(gpg)) && Conserved(a, b, c)
    && (ssh == [] ==> SameOfType(a, b, SSH)) && (gpg == [] ==> SameOfType(a, b, GPG))
  }

  lemma BothPasses(a: Rows, b: Rows, ssh: Fetch, gpg: Fetch, c: Counts, source: nat)
    requires BothSynced(a, b, source, KeysOf(ssh), KeysOf(gpg), c)
    ensures Evidenced(a, b, source, ssh, gpg) && Conserved(a, b, c)
    ensures forall k :: KeysOf(FetchOf(k, ssh, gpg)) == [] ==> SameOfType(a, b, k)
  {
    hide Seen, SameOfType;
  }
}

/** Refreshing every account a user has connected. */
module Refresh {
  import opened Text
  import opened Keys
  import opened KeyStore
  import opened Sync
  import opened Sources
  import opened Ownership
  import opened Reports
  import opened Scrape
  import opened Tasks

  /** What comes of one account: no scraper for its provider, a user who cannot be fetched, or
      a user with what fetching each type of key gives. */
  datatype Visit = NoScraper | Unreachable | Visited(user: User, ssh: Fetch, gpg: Fetch)

  datatype Summary = Summary(accounts: nat, counts: Counts)

  datatype RefreshError = AccountsUnknown | NoConnectedAccounts

  function NameOf(a: Account): string {
    a.provider + "/" + a.username
  }

  function Names(accounts: seq<Account>): (names: seq<string>)
    ensures |names| == |accounts|
    ensures forall i :: 0 <= i < |names| ==> names[i] == accounts[i].provider + "/" + accounts[i].username
  {
    seq(|accounts|, i requires 0 <= i < |accounts| => NameOf(accounts[i]))
  }

  /** The sum of the accounts' counts. */
  function Total(counts: seq<Counts>): Counts {
    if counts == [] then NOTHING else Plus(Total(counts[..|counts| - 1]), counts[|counts| - 1])
  }

  /** No two keys fetched for an account, of one type, share a fingerprint. */
  predicate AllDistinct(visit: Visit) {
    visit.Visited? ==> DistinctKeys(KeysOf(visit.ssh)) && DistinctKeys(KeysOf(visit.gpg))
  }

  /** The rows as each account found and left them, and what was counted for it. */
  predicate Stages(stages: seq<Rows>, counts: seq<Counts>, visits: seq<Visit>) {
    && |stages| == |counts| + 1 && |counts| <= |visits|
    && forall i :: 0 <= i < |counts| ==> Counted(stages[i], stages[i + 1], counts[i], AllDistinct(visits[i]))
  }

  /** Where the counting stands after the first i accounts. */
  predicate Summed(r0: Rows, d0: Counts, rows: Rows, done: Counts, visits: seq<Visit>, i: nat, stages: seq<Rows>,
      counts: seq<Counts>, c: Counts) {
    && Stages(stages, counts, visits) && |counts| == i && c == Total(counts)
    && stages[0] == r0 && stages[i] == rows && done == Plus(d0, c) && Conserved(r0, rows, c)
  }

  lemma OneMore(r0: Rows, d0: Counts, before: Rows, done: Counts, rows: Rows, visits: seq<Visit>, i: nat,
      stages: seq<Rows>, counts: seq<Counts>, c: Counts, d: Counts)
    requires Summed(r0, d0, before, done, visits, i, stages, counts, c) && i < |visits|
    requires Counted(before, rows, d, AllDistinct(visits[i])) && Conserved(before, rows, d)
    ensures Summed(r0, d0, rows, Plus(done, d), visits, i + 1, stages + [rows], counts + [d], Plus(c, d))
  {
    hide Counted, AllDistinct, Conserved, Plus;
    PlusConserves(r0, before, rows, c, d);
    PlusSums(d0, c, d);
    assert (counts + [d])[..|counts|] == counts;
  }

  lemma FirstStages(rows: Rows, done: Counts, visits: seq<Visit>)
    ensures Summed(rows, done, rows, done, visits, 0, [rows], [], NOTHING)
  {}

  lemma PlusConserves(a: Rows, m: Rows, b: Rows, c: Counts, d: Counts)
    requires Conserved(a, m, c) && Conserved(m, b, d)
    ensures Conserved(a, b, Plus(c, d))
  {}

  lemma ReportsSoFar(names: seq<string>, i: nat)
    requires i < |names|
    ensures RefreshReports(names)[..1] == [Progress(0, |names|, "Starting")]
    ensures RefreshReports(names)[..i + 2] ==
      RefreshReports(names)[..i + 1] + [Progress(i, |names|, "Refreshing " + names[i])]
    ensures RefreshReports(names) == RefreshReports(names)[..|names| + 1] + [Progress(|names|, |names|, "Done")]
  {}

  /** What the profile owns afterwards: the sources its accounts resolve to. */
  predicate Owns(rows: Sources.Table, profile: nat, accounts: seq<Account>, res: seq<Option<nat>>) {
    && Resolution(rows, accounts, res)
    && forall id :: id in rows ==> (rows[id].profile == Some(profile) <==> id in Owned(res))
  }

  lemma RebuiltOwns(rows: Sources.Table, profile: nat, accounts: seq<Account>, res: seq<Option<nat>>)
    requires Resolution(rows, accounts, res)
    ensures Owns(Rebuilt(rows, profile, Owned(res)), profile, accounts, res)
  {
    forall i | 0 <= i < |accounts|
      ensures Answers(Rebuilt(rows, profile, Owned(res)), accounts[i], res[i])
    {
      assert Answers(rows, accounts[i], res[i]);
      AnswersStay(rows, profile, Owned(res), accounts[i], res[i]);
    }
  }

  class Service {
    const scraper: UserScraper
    const owners: Owners

    constructor (scraper: UserScraper, owners: Owners)
      ensures this.scraper == scraper && this.owners == owners
    {
      this.scraper, this.owners := scraper, owners;
    }

    ghost predicate Valid()
      reads scraper.sources, scraper.scraper.keys
    {
      scraper.Valid() && owners.sources == scraper.sources
    }

    /** One account; what goes wrong with it costs the others nothing. */
    method RefreshAccount(a: Account, visit: Visit) returns (c: Counts, source: Option<nat>)
      requires Valid()
      modifies scraper.sources, scraper.scraper.keys
      ensures Valid() && scraper.sources.calls >= old(scraper.sources.calls)
      ensures Conserved(old(scraper.scraper.keys.rows), scraper.scraper.keys.rows, c)
      ensures Counted(old(scraper.scraper.keys.rows), scraper.scraper.keys.rows, c, AllDistinct(visit))
      ensures scraper.scraper.keys.done == Plus(old(scraper.scraper.keys.done), c)
      ensures !visit.Visited? ==>
        c == NOTHING && source.None? && scraper.scraper.keys.rows == old(scraper.scraper.keys.rows)
      ensures visit.Visited? && scraper.sources.UpSince(old(scraper.sources.calls)) ==>
        (source.Some? <==>
          visit.ssh != RateLimited && (KeysOf(visit.ssh) != [] || KeysOf(visit.gpg) != []))
      ensures source.Some? ==>
        && source.value in scraper.sources.rows
        && IsOf(scraper.sources.rows[source.value], a.provider, visit.user)
        && Evidenced(old(scraper.scraper.keys.rows), scraper.scraper.keys.rows, source.value, visit.ssh, visit.gpg)
      ensures (&& source.Some? && scraper.scraper.keys.UpSince(old(scraper.scraper.keys.calls))
               && Few(old(scraper.scraper.keys.rows), source.value)) ==>
        && Mirrors(old(scraper.scraper.keys.rows), scraper.scraper.keys.rows, source.value,
          KeysOf(visit.ssh), KeysOf(visit.gpg))
        && (AllDistinct(visit) ==>
            && Current(scraper.scraper.keys.rows, KeysOf(visit.ssh), source.value, SSH)
            && Current(scraper.scraper.keys.rows, KeysOf(visit.gpg), source.value, GPG))
    {
      c, source := NOTHING, None;
      NothingCounts(scraper.scraper.keys.rows, AllDistinct(visit));
      PlusSums(scraper.scraper.keys.done, NOTHING, NOTHING);
      hide Counted, Plus, DistinctKeys, Current;
      match visit
      case NoScraper =>
      case Unreachable =>
      case Visited(user, ssh, gpg) =>
        var result;
        result, source := scraper.ProcessUser(a.provider, user, ssh, gpg);
        c := result.counts;
    }

    /** The summary's counts are the accounts' counts summed, each of them what the store gained,
        lost and changed over that account. */
    method Refresh(accounts: Option<seq<Account>>, visits: seq<Visit>, profile: Option<nat>)
      returns (summary: Option<Summary>, error: Option<RefreshError>, reports: seq<Progress>,
        ghost stages: seq<Rows>, ghost counts: seq<Counts>)
      requires Valid() && (accounts.Some? ==> |visits| == |accounts.value|)
      modifies scraper.sources, scraper.scraper.keys
      ensures Valid()
      ensures error == if accounts.None? then Some(AccountsUnknown)
        else if accounts.value == [] then Some(NoConnectedAccounts) else None
      ensures error.Some? ==>
        && summary.None? && reports == [] && scraper.scraper.keys.rows == old(scraper.scraper.keys.rows)
        && scraper.sources.rows == old(scraper.sources.rows)
      ensures error.None? ==>
        && summary.Some? && summary.value.accounts == |accounts.value|
        && reports == RefreshReports(Names(accounts.value))
        && Conserved(old(scraper.scraper.keys.rows), scraper.scraper.keys.rows, summary.value.counts)
        && Stages(stages, counts, visits) && |counts| == |visits| && summary.value.counts == Total(counts)
        && stages[0] == old(scraper.scraper.keys.rows) && stages[|visits|] == scraper.scraper.keys.rows
        && scraper.scraper.keys.done == Plus(old(scraper.scraper.keys.done), summary.value.counts)
      ensures error.None? && profile.Some? && scraper.sources.UpSince(old(scraper.sources.calls)) ==>
        exists res :: Owns(scraper.sources.rows, profile.value, accounts.value, res)
    {
      summary, error, reports, stages, counts := None, None, [], [scraper.scraper.keys.rows], [];
      if accounts.None? {
        error := Some(AccountsUnknown);
        return;
      }
      var all := accounts.value;
      if |all| == 0 {
        error := Some(NoConnectedAccounts);
        return;
      }
      var c := NOTHING;
      var names := Names(all);
      reports := [Progress(0, |all|, "Starting")];
      ReportsSoFar(names, 0);
      hide Conserved, RefreshReports, Resolution, Owned, Rebuilt, OnePerSource, OnePerAccount, Counted, Summed, Total,
        Plus;
      FirstStages(scraper.scraper.keys.rows, scraper.scraper.keys.done, visits);
      for i := 0 to |all|
        invariant Valid() && scraper.sources.calls >= old(scraper.sources.calls)
        invariant reports == RefreshReports(names)[..i + 1]
        invariant Summed(old(scraper.scraper.keys.rows), old(scraper.scraper.keys.done), scraper.scraper.keys.rows,
          scraper.scraper.keys.done, visits, i, stages, counts, c)
      {
        ReportsSoFar(names, i);
        reports := reports + [Progress(i, |all|, "Refreshing " + names[i])];
        ghost var before, done := scraper.scraper.keys.rows, scraper.scraper.keys.done;
        var d, source := RefreshAccount(all[i], visits[i]);
        OneMore(old(scraper.scraper.keys.rows), old(scraper.scraper.keys.done), before, done, scraper.scraper.keys.rows,
          visits, i, stages, counts, c, d);
        stages, counts, c := stages + [scraper.scraper.keys.rows], counts + [d], Plus(c, d);
      }
      if profile.Some? {
        ghost var rows := scraper.sources.rows;
        var ok, res := owners.SyncOwnership(profile.value, all);
        if ok {
          assert all[..|res|] == all;
          RebuiltOwns(rows, profile.value, all, res);
        }
      }
      ReportsSoFar(names, 0);
      reports := reports + [Progress(|all|, |all|, "Done")];
      summary := Some(Summary(|all|, c));
    }
  }
}

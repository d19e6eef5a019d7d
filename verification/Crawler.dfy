/** The continuous crawl of a provider's accounts, resumed from a saved cursor. */
module Crawler {
  import opened Text
  import opened Walk

  /** How one iteration goes: the listing may fail, the save may fail, and the process may die
      after passing on only some of the page. */
  datatype Weather = Weather(listUp: bool, saveUp: bool, dies: Option<nat>)

  /** One iteration as it went: where it listed from, what was listed, if anything, and how
      many of those accounts were passed on. */
  datatype Round = Round(cursor: Id, page: Option<seq<Id>>, passed: nat)

  function Advance(r: Round): Id {
    if r.page.None? then r.cursor else if r.page.value == [] then 0 else r.page.value[|r.page.value| - 1]
  }

  /** How many accounts of a page are passed on before the process dies, if it does. */
  function DiesAfter(w: Weather, page: seq<Id>): (n: nat)
    ensures n <= |page| && (w.dies.None? ==> n == |page|)
    ensures w.dies.Some? && w.dies.value <= |page| ==> n == w.dies.value
  {
    if w.dies.Some? && w.dies.value < |page| then w.dies.value else |page|
  }

  predicate RoundOk(r: Round, w: Weather, table: Table, limit: nat) {
    match r.page
    case None => !w.listUp && r.passed == 0
    case Some(page) =>
      && w.listUp && IsPage(table, r.cursor, limit, page)
      && r.passed == DiesAfter(w, page)
  }

  function CursorAfter(log: seq<Round>, start: Id): Id {
    if log == [] then start else Advance(log[|log| - 1])
  }

  /** Each round lists from where the one before it left the cursor, and follows a whole one. */
  predicate Rounds(log: seq<Round>, script: seq<Weather>, tables: nat -> Table, first: nat, start: Id, limit: nat) {
    && |log| <= |script|
    && (log != [] ==>
        var front, last := log[..|log| - 1], log[|log| - 1];
        && Rounds(front, script, tables, first, start, limit) && (front != [] ==> Whole(front[|front| - 1]))
        && RoundOk(last, script[|front|], tables(first + |front|), limit)
        && last.cursor == CursorAfter(front, start))
  }

  /** A run goes through its script, unless a round dies midway. */
  predicate Ended(log: seq<Round>, script: seq<Weather>) {
    |log| == |script| || (log != [] && !Whole(log[|log| - 1]))
  }

  predicate Whole(r: Round) {
    r.page.None? || r.passed == |r.page.value|
  }

  /** Everything the rounds passed on, in order. */
  function PassedOn(log: seq<Round>): seq<Id> {
    if log == [] then []
    else
      var r := log[|log| - 1];
      PassedOn(log[..|log| - 1])
      + if r.page.Some? && r.passed <= |r.page.value| then r.page.value[..r.passed] else []
  }

  /** The cursor the saves that went through leave. */
  function SavedBy(log: seq<Round>, script: seq<Weather>, saved: Id): Id
    requires |log| <= |script|
  {
    if log == [] then saved
    else
      var last := |log| - 1;
      var r := log[last];
      if r.page.Some? && r.page.value != [] && Whole(r) && script[last].saveUp then Advance(r)
      else SavedBy(log[..last], script, saved)
  }

  /** One pass over the accounts, from the listing after an empty page to the next empty page. */
  datatype Turn = Turn(from: nat, to: nat, ids: seq<Id>)

  /** Each account that was there throughout is passed on exactly once. */
  predicate Complete(tables: nat -> Table, t: Turn) {
    Ascending(t.ids) && Covers(tables, t.from, t.to, MAX_ID - 1, t.ids)
  }

  /** Where a pass that began at an empty cursor stands. */
  predicate Standing(tables: nat -> Table, from: nat, calls: nat, cursor: Id, pass: seq<Id>) {
    && from <= calls && Ascending(pass) && (forall i :: 0 <= i < |pass| ==> pass[i] <= cursor)
    && Covers(tables, from, calls, cursor, pass)
  }

  /** A round passed on whole whose listing went over an id: the account of that id, if it was
      there at that listing, was on its page and has been passed on. */
  predicate Over(table: Table, r: Round, id: Id, processed: seq<Id>) {
    && r.page.Some? && Whole(r) && r.cursor < id <= Advance(r)
    && (id in table ==> id in r.page.value && id in processed)
  }

  predicate WentOver(tables: nat -> Table, rounds: seq<Round>, id: Id, processed: seq<Id>) {
    exists c :: 0 <= c < |rounds| && Over(tables(c), rounds[c], id, processed)
  }

  ghost predicate AllOver(tables: nat -> Table, rounds: seq<Round>, upTo: Id, processed: seq<Id>) {
    forall id: Id :: 0 < id <= upTo ==> WentOver(tables, rounds, id, processed)
  }

  class Crawler {
    /** The provider's accounts at the time of each listing; ids ascend. */
    const tables: nat -> Table
    const batchSize: nat
    /** What survives a restart: the saved cursor, and what has been passed to processUser. */
    var saved: Id
    var processed: seq<Id>
    var calls: nat
    /** Every round of every run, the n-th of them with the n-th listing. */
    ghost var rounds: seq<Round>

    constructor (tables: nat -> Table, batchSize: nat)
      requires batchSize > 0
      ensures Valid() && this.tables == tables && this.batchSize == batchSize && saved == 0
    {
      this.tables, this.batchSize := tables, batchSize;
      saved, processed, calls, rounds := 0, [], 0, [];
    }

    /** For every id at or below the saved cursor some listing went over it, and its account,
        if it was there then, has been passed on. */
    ghost predicate Valid()
      reads this
    {
      && batchSize > 0 && |rounds| == calls
      && forall id: Id :: 0 < id <= saved ==> WentOver(tables, rounds, id, processed)
    }

    method ProcessUsers(ids: seq<Id>)
      modifies this`processed
      ensures processed == old(processed) + ids
    {
      for i := 0 to |ids|
        invariant processed == old(processed) + ids[..i]
      {
        processed := processed + [ids[i]];
        assert ids[..i + 1] == ids[..i] + [ids[i]];
      }
      assert ids[..|ids|] == ids;
    }

    /** The loop, until it is stopped or dies; started again, it resumes from the saved
        cursor. */
    method Run(script: seq<Weather>) returns (ghost log: seq<Round>)
      requires Valid()
      modifies this
      ensures Valid()
      ensures Rounds(log, script, tables, old(calls), old(saved), batchSize) && Ended(log, script)
      ensures calls == old(calls) + |log|
      ensures processed == old(processed) + PassedOn(log)
      ensures saved == SavedBy(log, script, old(saved)) && rounds == old(rounds) + log
    {
      hide *;
      var cursor := saved;
      log := [];
      ValidIs();
      StartsAt(script, tables, calls, saved, batchSize, processed);
      for i := 0 to |script|
        invariant batchSize > 0 && |log| == i && calls == old(calls) + i && rounds == old(rounds)
        invariant StandsAt(log, script, tables, old(calls), old(saved), batchSize, old(processed), saved, cursor,
          processed)
      {
        var n := calls;
        calls := n + 1;
        if !script[i].listUp {
          FailedGoesOn(log, script, tables, old(calls), old(saved), batchSize, old(processed), saved, cursor,
            processed);
          log := log + [Round(cursor, None, 0)];
          continue;
        }
        var page := List(tables(n), cursor, batchSize);
        var count := DiesAfter(script[i], page);
        ListedGoesOn(log, script, tables, old(calls), old(saved), batchSize, old(processed), saved, cursor, processed,
          page);
        log := log + [Round(cursor, Some(page), count)];
        if |page| == 0 {
          cursor := 0;
          continue;
        }
        ProcessUsers(page[..count]);
        if count < |page| {
          StoppedAt(log, script, tables, old(calls), old(saved), batchSize, old(processed), saved, processed);
          Extended(script, tables, old(rounds), log, old(saved), batchSize, old(processed));
          rounds := rounds + log;
          IsValid();
          return;
        }
        cursor := page[|page| - 1];
        if script[i].saveUp {
          saved := cursor;
        }
      }
      StandsIs(log, script, tables, old(calls), old(saved), batchSize, old(processed), saved, cursor, processed);
      StoppedAt(log, script, tables, old(calls), old(saved), batchSize, old(processed), saved, processed);
      Extended(script, tables, old(rounds), log, old(saved), batchSize, old(processed));
      rounds := rounds + log;
      IsValid();
    }

    lemma ValidIs()
      requires Valid()
      ensures batchSize > 0 && |rounds| == calls && AllOver(tables, rounds, saved, processed)
    {}

    lemma IsValid()
      requires batchSize > 0 && |rounds| == calls && AllOver(tables, rounds, saved, processed)
      ensures Valid()
    {}
  }

  lemma {:induction false} PassedHas(log: seq<Round>, m: nat, id: Id)
    requires m < |log| && log[m].page.Some? && Whole(log[m]) && id in log[m].page.value
    ensures id in PassedOn(log)
  {
    var front := log[..|log| - 1];
    if m < |front| {
      PassedHas(front, m, id);
    } else {
      var page := log[m].page.value;
      assert page[..log[m].passed] == page;
    }
  }

  /** Up to the cursor, every id past the start was gone over by a whole round. */
  lemma {:induction false} CursorOver(log: seq<Round>, script: seq<Weather>, tables: nat -> Table, first: nat,
      start: Id, limit: nat, id: Id) returns (m: nat)
    requires Rounds(log, script, tables, first, start, limit) && (log != [] ==> Whole(log[|log| - 1]))
    requires start < id <= CursorAfter(log, start)
    ensures m < |log| && Over(tables(first + m), log[m], id, PassedOn(log))
  {
    var front, r := log[..|log| - 1], log[|log| - 1];
    m := |front|;
    if id <= r.cursor {
      m := CursorOver(front, script, tables, first, start, limit, id);
      OverMore(log, tables(first + m), m, id);
    } else if id in tables(first + m) {
      PassedHas(log, m, id);
    }
  }

  lemma OverMore(log: seq<Round>, table: Table, m: nat, id: Id)
    requires m < |log| - 1 && Over(table, log[m], id, PassedOn(log[..|log| - 1]))
    ensures Over(table, log[m], id, PassedOn(log))
  {
    if id in table {
      PassedHas(log, m, id);
    }
    hide PassedOn;
  }

  /** So was every id up to the saved cursor. */
  lemma {:induction false} SavedOver(log: seq<Round>, script: seq<Weather>, tables: nat -> Table, first: nat, start: Id,
      limit: nat, id: Id) returns (m: nat)
    requires Rounds(log, script, tables, first, start, limit)
    requires start < id <= SavedBy(log, script, start)
    ensures m < |log| && Over(tables(first + m), log[m], id, PassedOn(log))
  {
    var last := |log| - 1;
    var r := log[last];
    if r.page.Some? && r.page.value != [] && Whole(r) && script[last].saveUp {
      m := CursorOver(log, script, tables, first, start, limit, id);
    } else {
      m := SavedOver(log[..last], script, tables, first, start, limit, id);
      OverMore(log, tables(first + m), m, id);
    }
  }

  /** What held of all rounds so far holds with those of one more run. */
  lemma Extended(script: seq<Weather>, tables: nat -> Table, rounds: seq<Round>, log: seq<Round>, start: Id, limit: nat,
      before: seq<Id>)
    requires AllOver(tables, rounds, start, before) && Rounds(log, script, tables, |rounds|, start, limit)
    ensures AllOver(tables, rounds + log, SavedBy(log, script, start), before + PassedOn(log))
  {
    var all, processed := rounds + log, before + PassedOn(log);
    assert |log| <= |script|;
    hide Rounds, SavedBy, PassedOn, Over;
    forall id: Id | 0 < id <= SavedBy(log, script, start)
      ensures WentOver(tables, all, id, processed)
    {
      if id <= start {
        assert WentOver(tables, rounds, id, before);
        var c :| 0 <= c < |rounds| && Over(tables(c), rounds[c], id, before);
        OverLater(tables(c), rounds[c], id, before, processed);
        assert all[c] == rounds[c];
      } else {
        var m := SavedOver(log, script, tables, |rounds|, start, limit, id);
        OverLater(tables(|rounds| + m), log[m], id, PassedOn(log), processed);
        assert all[|rounds| + m] == log[m];
      }
    }
  }

  lemma OverLater(table: Table, r: Round, id: Id, a: seq<Id>, b: seq<Id>)
    requires Over(table, r, id, a) && forall x :: x in a ==> x in b
    ensures Over(table, r, id, b)
  {}

  /** What the rounds so far have come to: the saved cursor and what was passed on. */
  predicate Comes(log: seq<Round>, script: seq<Weather>, tables: nat -> Table, first: nat, start: Id, limit: nat,
      before: seq<Id>, saved: Id, processed: seq<Id>)
  {
    && Rounds(log, script, tables, first, start, limit)
    && processed == before + PassedOn(log) && saved == SavedBy(log, script, start)
  }

  /** The same between two rounds, with the cursor of the next. */
  predicate StandsAt(log: seq<Round>, script: seq<Weather>, tables: nat -> Table, first: nat, start: Id, limit: nat,
      before: seq<Id>, saved: Id, cursor: Id, processed: seq<Id>)
  {
    && Comes(log, script, tables, first, start, limit, before, saved, processed)
    && (log != [] ==> Whole(log[|log| - 1]))
    && cursor == CursorAfter(log, start)
  }

  lemma StandsIs(log: seq<Round>, script: seq<Weather>, tables: nat -> Table, first: nat, start: Id, limit: nat,
      before: seq<Id>, saved: Id, cursor: Id, processed: seq<Id>)
    requires StandsAt(log, script, tables, first, start, limit, before, saved, cursor, processed)
    ensures Comes(log, script, tables, first, start, limit, before, saved, processed)
  {}

  lemma StartsAt(script: seq<Weather>, tables: nat -> Table, first: nat, saved: Id, limit: nat, processed: seq<Id>)
    ensures StandsAt([], script, tables, first, saved, limit, processed, saved, saved, processed)
  {
    NoRounds(script, tables, first, saved, limit);
    hide Rounds, PassedOn, SavedBy, CursorAfter;
    assert processed + [] == processed;
  }

  lemma StoppedAt(log: seq<Round>, script: seq<Weather>, tables: nat -> Table, first: nat, start: Id, limit: nat,
      before: seq<Id>, saved: Id, processed: seq<Id>)
    requires Comes(log, script, tables, first, start, limit, before, saved, processed)
    requires |log| == |script| || (log != [] && !Whole(log[|log| - 1]))
    ensures Rounds(log, script, tables, first, start, limit) && Ended(log, script)
    ensures processed == before + PassedOn(log) && saved == SavedBy(log, script, start)
  {
    hide Rounds, PassedOn, SavedBy, Whole;
  }

  lemma FailedGoesOn(log: seq<Round>, script: seq<Weather>, tables: nat -> Table, first: nat, start: Id, limit: nat,
      before: seq<Id>, saved: Id, cursor: Id, processed: seq<Id>)
    requires |log| < |script| && !script[|log|].listUp
    requires StandsAt(log, script, tables, first, start, limit, before, saved, cursor, processed)
    ensures StandsAt(log + [Round(cursor, None, 0)], script, tables, first, start, limit, before, saved, cursor,
      processed)
  {
    FailedRound(log, script, cursor, tables, first, start, limit);
    hide Rounds, PassedOn, SavedBy, CursorAfter;
  }

  lemma DiesOn(log: seq<Round>, script: seq<Weather>, tables: nat -> Table, first: nat, start: Id, limit: nat,
      before: seq<Id>, saved: Id, cursor: Id, processed: seq<Id>, page: seq<Id>)
    requires |log| < |script| && script[|log|].listUp && IsPage(tables(first + |log|), cursor, limit, page)
    requires StandsAt(log, script, tables, first, start, limit, before, saved, cursor, processed)
    requires DiesAfter(script[|log|], page) < |page|
    ensures var count := DiesAfter(script[|log|], page);
      Comes(log + [Round(cursor, Some(page), count)], script, tables, first, start, limit, before, saved,
        processed + page[..count])
  {
    var count := DiesAfter(script[|log|], page);
    ListedRound(log, script, cursor, page, tables, first, start, limit);
    Appended(before, PassedOn(log), page[..count]);
    hide Rounds, PassedOn, SavedBy, CursorAfter, Whole, IsPage, DiesAfter;
  }

  lemma EmptyOn(log: seq<Round>, script: seq<Weather>, tables: nat -> Table, first: nat, start: Id, limit: nat,
      before: seq<Id>, saved: Id, cursor: Id, processed: seq<Id>, page: seq<Id>)
    requires |log| < |script| && script[|log|].listUp && IsPage(tables(first + |log|), cursor, limit, page)
    requires StandsAt(log, script, tables, first, start, limit, before, saved, cursor, processed)
    requires page == []
    ensures StandsAt(log + [Round(cursor, Some(page), 0)], script, tables, first, start, limit, before, saved, 0,
      processed)
  {
    ListedRound(log, script, cursor, page, tables, first, start, limit);
    hide Rounds, PassedOn, SavedBy, CursorAfter, Whole, IsPage, DiesAfter;
    assert PassedOn(log) + page[..0] == PassedOn(log);
  }

  lemma WholeOn(log: seq<Round>, script: seq<Weather>, tables: nat -> Table, first: nat, start: Id, limit: nat,
      before: seq<Id>, saved: Id, cursor: Id, processed: seq<Id>, page: seq<Id>)
    requires |log| < |script| && script[|log|].listUp && IsPage(tables(first + |log|), cursor, limit, page)
    requires StandsAt(log, script, tables, first, start, limit, before, saved, cursor, processed)
    requires page != [] && DiesAfter(script[|log|], page) == |page|
    ensures var last := page[|page| - 1];
      StandsAt(log + [Round(cursor, Some(page), |page|)], script, tables, first, start, limit, before,
        if script[|log|].saveUp then last else saved, last, processed + page)
  {
    ListedRound(log, script, cursor, page, tables, first, start, limit);
    Appended(before, PassedOn(log), page);
    hide Rounds, PassedOn, SavedBy, CursorAfter, Whole, IsPage, DiesAfter;
    assert page[..|page|] == page;
  }

  lemma Appended(a: seq<Id>, b: seq<Id>, c: seq<Id>)
    ensures (a + b) + c == a + (b + c)
  {}

  /** A listed page, passed on in whole or in part. */
  lemma ListedGoesOn(log: seq<Round>, script: seq<Weather>, tables: nat -> Table, first: nat, start: Id, limit: nat,
      before: seq<Id>, saved: Id, cursor: Id, processed: seq<Id>, page: seq<Id>)
    requires |log| < |script| && script[|log|].listUp && IsPage(tables(first + |log|), cursor, limit, page)
    requires StandsAt(log, script, tables, first, start, limit, before, saved, cursor, processed)
    ensures var count := DiesAfter(script[|log|], page);
      var r := Round(cursor, Some(page), count); var more := log + [r];
      && (count < |page| ==>
          !Whole(r) && Comes(more, script, tables, first, start, limit, before, saved, processed + page[..count]))
      && (page == [] ==> StandsAt(more, script, tables, first, start, limit, before, saved, 0, processed))
      && (page != [] && count == |page| ==>
          var last := page[|page| - 1];
          StandsAt(more, script, tables, first, start, limit, before, if script[|log|].saveUp then last else saved,
            last, processed + page[..count]))
  {
    var count := DiesAfter(script[|log|], page);
    hide Comes, StandsAt, IsPage, DiesAfter;
    if page == [] {
      EmptyOn(log, script, tables, first, start, limit, before, saved, cursor, processed, page);
    } else if count == |page| {
      WholeOn(log, script, tables, first, start, limit, before, saved, cursor, processed, page);
      assert page[..count] == page;
    } else {
      DiesOn(log, script, tables, first, start, limit, before, saved, cursor, processed, page);
    }
  }

  lemma NoRounds(script: seq<Weather>, tables: nat -> Table, first: nat, start: Id, limit: nat)
    ensures Rounds([], script, tables, first, start, limit)
    ensures PassedOn([]) == [] && SavedBy([], script, start) == start && CursorAfter([], start) == start
  {}

  /** One more round after whole ones. */
  lemma NextRound(log: seq<Round>, script: seq<Weather>, r: Round, tables: nat -> Table, first: nat, start: Id,
      limit: nat)
    requires |log| < |script| && Rounds(log, script, tables, first, start, limit)
    requires log != [] ==> Whole(log[|log| - 1])
    requires RoundOk(r, script[|log|], tables(first + |log|), limit) && r.cursor == CursorAfter(log, start)
    ensures var more := log + [r];
      && Rounds(more, script, tables, first, start, limit) && CursorAfter(more, start) == Advance(r)
      && PassedOn(more) == PassedOn(log)
        + (if r.page.Some? && r.passed <= |r.page.value| then r.page.value[..r.passed] else [])
      && SavedBy(more, script, start) ==
        if r.page.Some? && r.page.value != [] && Whole(r) && script[|log|].saveUp then Advance(r)
        else SavedBy(log, script, start)
  {
    hide RoundOk, Whole, Advance;
    assert (log + [r])[..|log|] == log;
  }

  lemma FailedRound(log: seq<Round>, script: seq<Weather>, cursor: Id, tables: nat -> Table, first: nat, start: Id,
      limit: nat)
    requires |log| < |script| && Rounds(log, script, tables, first, start, limit)
    requires log != [] ==> Whole(log[|log| - 1])
    requires !script[|log|].listUp && cursor == CursorAfter(log, start)
    ensures var r := Round(cursor, None, 0); var more := log + [r];
      && Rounds(more, script, tables, first, start, limit) && CursorAfter(more, start) == cursor
      && PassedOn(more) == PassedOn(log) && SavedBy(more, script, start) == SavedBy(log, script, start) && Whole(r)
  {
    NextRound(log, script, Round(cursor, None, 0), tables, first, start, limit);
    hide Rounds, PassedOn, SavedBy, CursorAfter;
    assert PassedOn(log) + [] == PassedOn(log);
  }

  lemma ListedRound(log: seq<Round>, script: seq<Weather>, cursor: Id, page: seq<Id>, tables: nat -> Table, first: nat,
      start: Id, limit: nat)
    requires |log| < |script| && Rounds(log, script, tables, first, start, limit)
    requires log != [] ==> Whole(log[|log| - 1])
    requires var w := script[|log|]; w.listUp && IsPage(tables(first + |log|), cursor, limit, page)
    requires cursor == CursorAfter(log, start)
    ensures var w := script[|log|];
      var count := DiesAfter(w, page);
      var r := Round(cursor, Some(page), count); var more := log + [r];
      && Rounds(more, script, tables, first, start, limit)
      && CursorAfter(more, start) == (if page == [] then 0 else page[|page| - 1])
      && PassedOn(more) == PassedOn(log) + page[..count]
      && SavedBy(more, script, start) ==
        (if page != [] && count == |page| && w.saveUp then page[|page| - 1] else SavedBy(log, script, start))
      && (Whole(r) <==> count == |page|)
  {
    var w := script[|log|];
    var count := DiesAfter(w, page);
    NextRound(log, script, Round(cursor, Some(page), count), tables, first, start, limit);
    hide Rounds, PassedOn, SavedBy, CursorAfter, IsPage;
  }

  lemma {:induction false} RoundAt(log: seq<Round>, script: seq<Weather>, tables: nat -> Table, first: nat, start: Id,
      limit: nat, m: nat)
    requires Rounds(log, script, tables, first, start, limit) && m < |log|
    ensures |log| <= |script| && RoundOk(log[m], script[m], tables(first + m), limit)
    ensures log[m].cursor == CursorAfter(log[..m], start)
    ensures m < |log| - 1 ==> Whole(log[m])
  {
    hide RoundOk, Whole, Advance;
    var front := log[..|log| - 1];
    if m < |front| {
      RoundAt(front, script, tables, first, start, limit, m);
      assert front[..m] == log[..m];
    }
  }

  /** Where the pass that began after an empty page stands before each later round. */
  lemma {:induction false} PassStands(log: seq<Round>, script: seq<Weather>, tables: nat -> Table, first: nat,
      start: Id, limit: nat, i: nat, m: nat)
    requires Rounds(log, script, tables, first, start, limit) && limit > 0 && i < m < |log|
    requires log[i].page == Some([]) && forall j :: i < j < m ==> log[j].page != Some([])
    ensures Standing(tables, first + i + 1, first + m, log[m].cursor, PassedOn(log[i + 1..m]))
    decreases m
  {
    hide *;
    PassedSnoc([], log[m]);
    RoundAt(log, script, tables, first, start, limit, m);
    RoundAt(log, script, tables, first, start, limit, m - 1);
    assert log[..m][m - 1] == log[m - 1];
    CursorIs(log[..m], start);
    if m == i + 1 {
      assert log[i + 1..m] == [];
      NoneYet(tables, first + m);
    } else {
      PassStands(log, script, tables, first, start, limit, i, m - 1);
      RoundGoesOn(log[m - 1], script[m - 1], tables, first + i + 1, first + m - 1, limit, PassedOn(log[i + 1..m - 1]));
      assert log[i + 1..m] == log[i + 1..m - 1] + [log[m - 1]];
      PassedSnoc(log[i + 1..m - 1], log[m - 1]);
    }
  }

  lemma CursorIs(log: seq<Round>, start: Id)
    requires log != []
    ensures CursorAfter(log, start) == Advance(log[|log| - 1])
    ensures log[|log| - 1].page == Some([]) ==> Advance(log[|log| - 1]) == 0
  {}

  lemma PassedSnoc(log: seq<Round>, r: Round)
    ensures PassedOn(log + [r]) ==
      PassedOn(log) + (if r.page.Some? && r.passed <= |r.page.value| then r.page.value[..r.passed] else [])
    ensures PassedOn([]) == []
  {
    assert (log + [r])[..|log|] == log;
  }

  lemma RoundGoesOn(r: Round, w: Weather, tables: nat -> Table, from: nat, calls: nat, limit: nat, pass: seq<Id>)
    requires RoundOk(r, w, tables(calls), limit) && Whole(r) && r.page != Some([])
    requires Standing(tables, from, calls, r.cursor, pass)
    ensures Standing(tables, from, calls + 1, Advance(r),
      pass + (if r.page.Some? && r.passed <= |r.page.value| then r.page.value[..r.passed] else []))
  {
    hide Standing, IsPage;
    if r.page.None? {
      StandingLater(tables, from, calls, r.cursor, pass);
      assert pass + [] == pass;
    } else {
      var page := r.page.value;
      assert page[..r.passed] == page;
      PassGoesOn(tables, from, calls, r.cursor, limit, pass, page);
    }
  }

  /** Between two empty pages of one run, each account that is there throughout is passed on
      exactly once. */
  lemma PassIsComplete(log: seq<Round>, script: seq<Weather>, tables: nat -> Table, first: nat,
      start: Id, limit: nat, i: nat, j: nat)
    requires Rounds(log, script, tables, first, start, limit) && limit > 0 && i < j < |log|
    requires log[i].page == Some([]) && log[j].page == Some([])
    requires forall m :: i < m < j ==> log[m].page != Some([])
    ensures Complete(tables, Turn(first + i + 1, first + j + 1, PassedOn(log[i + 1..j])))
  {
    hide *;
    PassStands(log, script, tables, first, start, limit, i, j);
    RoundAt(log, script, tables, first, start, limit, j);
    EmptyIsPage(log[j], script[j], tables(first + j), limit);
    PassEnds(tables, first + i + 1, first + j, log[j].cursor, limit, PassedOn(log[i + 1..j]));
  }

  lemma EmptyIsPage(r: Round, w: Weather, table: Table, limit: nat)
    requires RoundOk(r, w, table, limit) && r.page == Some([])
    ensures IsPage(table, r.cursor, limit, [])
  {}

  lemma Later(tables: nat -> Table, from: nat, calls: nat, upTo: Id, visited: seq<Id>)
    requires Covers(tables, from, calls, upTo, visited)
    ensures Covers(tables, from, calls + 1, upTo, visited)
  {}

  lemma StandingLater(tables: nat -> Table, from: nat, calls: nat, cursor: Id, pass: seq<Id>)
    requires Standing(tables, from, calls, cursor, pass)
    ensures Standing(tables, from, calls + 1, cursor, pass)
  {
    Later(tables, from, calls, cursor, pass);
  }

  lemma NoneYet(tables: nat -> Table, calls: nat)
    ensures Standing(tables, calls, calls, 0, [])
  {}

  lemma PassEnds(tables: nat -> Table, from: nat, calls: nat, cursor: Id, limit: nat, pass: seq<Id>)
    requires Standing(tables, from, calls, cursor, pass) && limit > 0 && IsPage(tables(calls), cursor, limit, [])
    ensures Complete(tables, Turn(from, calls + 1, pass))
  {
    EmptyPage(tables, from, calls, cursor, limit, pass);
  }

  lemma PassGoesOn(tables: nat -> Table, from: nat, calls: nat, cursor: Id, limit: nat, pass: seq<Id>, page: seq<Id>)
    requires Standing(tables, from, calls, cursor, pass) && page != [] && IsPage(tables(calls), cursor, limit, page)
    ensures Standing(tables, from, calls + 1, page[|page| - 1], pass + page)
  {
    PageCovers(tables, from, calls, cursor, limit, pass, page);
    AscendingAppend(pass, page, cursor);
  }
}

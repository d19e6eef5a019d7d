/** What an operation reports while it runs, and what of it the task's row shows. */
module Reports {
  import opened Text
  import opened Tasks

  /** Reports that share one total, start at nothing and never go back or past it. */
  predicate Climbs(ps: seq<Progress>, total: int) {
    && (forall i :: 0 <= i < |ps| ==> ps[i].total == total && 0 <= ps[i].done <= total)
    && (forall i, j :: 0 <= i < j < |ps| ==> ps[i].done <= ps[j].done)
    && (ps != [] ==> ps[0].done == 0)
  }

  /** The row after the reports whose writes went through. */
  function Shown(t: Task, ps: seq<Progress>, up: nat -> bool): Task {
    if ps == [] then t
    else
      var last := |ps| - 1;
      var before := Shown(t, ps[..last], up);
      if up(last) then Reported(before, ps[last]) else before
  }

  /** None of the reports from the i-th on went through. */
  predicate NoneFrom(ps: seq<Progress>, up: nat -> bool, i: nat) {
    forall j :: i <= j < |ps| ==> !up(j)
  }

  predicate Shows(r: Task, p: Progress) {
    && r.progress == p.done && r.total == p.total
    && r.message == if p.message == "" then None else Some(p.message)
  }

  /** What a row shows of the reports is the latest that went through, if any did. */
  predicate ShowsLatest(t: Task, ps: seq<Progress>, up: nat -> bool, r: Task) {
    && (NoneFrom(ps, up, 0) ==> r.progress == t.progress && r.total == t.total && r.message == t.message)
    && (forall i :: 0 <= i < |ps| && up(i) && NoneFrom(ps, up, i + 1) ==> Shows(r, ps[i]))
  }

  /** Reports touch nothing but progress, total and message, and show the latest that went
      through. */
  lemma {:induction false} ShownIs(t: Task, ps: seq<Progress>, up: nat -> bool)
    ensures var r := Shown(t, ps, up);
      && r == t.(progress := r.progress, total := r.total, message := r.message)
      && ((forall i :: 0 <= i < |ps| ==> !up(i)) ==> r == t) && ShowsLatest(t, ps, up, r)
  {
    if ps != [] {
      var front := ps[..|ps| - 1];
      ShownIs(t, front, up);
      LatestStep(t, ps, up, Shown(t, front, up));
      hide ShowsLatest;
    }
  }

  lemma LatestStep(t: Task, ps: seq<Progress>, up: nat -> bool, before: Task)
    requires ps != [] && ShowsLatest(t, ps[..|ps| - 1], up, before)
    ensures var last := |ps| - 1;
      ShowsLatest(t, ps, up, if up(last) then Reported(before, ps[last]) else before)
  {
    var last := |ps| - 1;
    var front := ps[..last];
    var after := if up(last) then Reported(before, ps[last]) else before;
    forall i | 0 <= i < |ps| && up(i) && NoneFrom(ps, up, i + 1)
      ensures Shows(after, ps[i])
    {
      if i < last {
        assert NoneFrom(front, up, i + 1) && front[i] == ps[i];
      }
    }
    assert NoneFrom(ps, up, 0) ==> NoneFrom(front, up, 0);
  }

  /** Once a report of an attempt has gone through, what the row shows only climbs, within a
      total that stays. */
  lemma {:induction false} ShownClimbs(t: Task, ps: seq<Progress>, up: nat -> bool, i: nat, total: int)
    requires Climbs(ps, total) && i <= |ps| && exists k :: 0 <= k < i && up(k)
    ensures var early, late := Shown(t, ps[..i], up), Shown(t, ps, up);
      && early.total == late.total == total
      && 0 <= early.progress <= late.progress <= total
    decreases |ps|
  {
    if i == |ps| {
      assert ps[..i] == ps;
      ShownSome(t, ps, up, total);
    } else {
      var last := |ps| - 1;
      var front := ps[..last];
      assert front[..i] == ps[..i];
      ShownClimbs(t, front, up, i, total);
      ShownSome(t, front, up, total);
    }
  }

  lemma {:induction false} ShownSome(t: Task, ps: seq<Progress>, up: nat -> bool, total: int)
    requires Climbs(ps, total) && exists k :: 0 <= k < |ps| && up(k)
    ensures var r := Shown(t, ps, up);
      r.total == total && exists k :: 0 <= k < |ps| && up(k) && r.progress == ps[k].done
  {
    var last := |ps| - 1;
    if !up(last) {
      var k :| 0 <= k < |ps| && up(k);
      assert k < last;
      ShownSome(t, ps[..last], up, total);
      var m :| 0 <= m < last && up(m) && Shown(t, ps[..last], up).progress == ps[..last][m].done;
      assert ps[m] == ps[..last][m];
    }
  }

  /** keyops.Refresh over n accounts. */
  function RefreshReports(names: seq<string>): (ps: seq<Progress>) {
    [Progress(0, |names|, "Starting")]
    + seq(|names|, i requires 0 <= i < |names| => Progress(i, |names|, "Refreshing " + names[i]))
    + [Progress(|names|, |names|, "Done")]
  }

  const REVOKE_STEPS: int := 3

  /** keyops.Revoke; a failed run reports only the first few. */
  function RevokeReports(provider: string): (ps: seq<Progress>) {
    [Progress(0, 3, "Checking ownership"), Progress(1, 3, "Deleting the key at " + provider),
     Progress(2, 3, "Removing it from SShark"), Progress(3, 3, "Done")]
  }

  lemma ReportsClimb(names: seq<string>, provider: string)
    ensures Climbs(RefreshReports(names), |names|) && Climbs(RevokeReports(provider), REVOKE_STEPS)
    ensures var ps := RefreshReports(names); ps != [] && ps[|ps| - 1].done == |names|
    ensures var ps := RevokeReports(provider); ps != [] && ps[|ps| - 1].done == REVOKE_STEPS
  {}

  lemma PrefixClimbs(ps: seq<Progress>, n: nat, total: int)
    requires Climbs(ps, total) && n <= |ps|
    ensures Climbs(ps[..n], total)
  {}

  /** A revocation that stops after its first n reports: once one of them has gone through the
      row climbs within three steps, and shows the last only of a revocation that got there. */
  lemma RevocationShows(t: Task, provider: string, n: nat, up: nat -> bool, i: nat)
    requires n <= |RevokeReports(provider)| && i <= n && exists k :: 0 <= k < i && up(k)
    ensures var ps := RevokeReports(provider)[..n];
      var early, late := Shown(t, ps[..i], up), Shown(t, ps, up);
      && early.total == late.total == REVOKE_STEPS
      && 0 <= early.progress <= late.progress < n
  {
    var ps := RevokeReports(provider)[..n];
    ReportsClimb([], provider);
    PrefixClimbs(RevokeReports(provider), n, REVOKE_STEPS);
    ShownClimbs(t, ps, up, i, REVOKE_STEPS);
    ShownSome(t, ps, up, REVOKE_STEPS);
  }
}

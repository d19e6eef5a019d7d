/** What the task protocol keeps over all runs: one operation at a time for the same work, with
    its one exception, and the history of a row. */
module Runs {
  import opened Tasks
  import opened Protocol

  predicate Executing(s: State, id: nat) {
    id in s.table && id in s.runners && s.runners[id].phase.Operating?
  }

  /** A task whose operation executes after its enqueuer, not knowing that the job was queued,
      has settled its row. */
  predicate SettledUnder(s: State, id: nat) {
    Executing(s, id) && s.table[id].status == Failed && Odd(s.runners[id])
  }

  /** Mutual exclusion: two operations for the same user and the same work execute at once only
      if one of them had its row settled under it. Whatever else is enqueued, retried, lost or
      killed, they never do. */
  lemma OneAtATime(s: State, i: nat, j: nat)
    requires Reachable(s) && Executing(s, i) && Executing(s, j)
    requires SameWork(s.table[i], s.table[j])
    ensures i == j || SettledUnder(s, i) || SettledUnder(s, j)
  {
    ReachableInv(s);
    FitsOf(s, i);
    FitsOf(s, j);
  }

  /** When an attempt is turned away: its task has settled, and another is doing the work. No
      operation runs then, and no row changes. */
  predicate TurnedAway(s: State, id: nat) {
    MarkRunningIn(s.table, id, s.clock).None?
  }

  lemma RefusalExactly(s: State, id: nat)
    requires Reachable(s) && Enabled(s, Mark(id, Answered))
    ensures TurnedAway(s, id) <==> !Active(s.table[id]) && Taken(s.table, id, s.table[id])
    ensures TurnedAway(s, id) ==>
      && (s.table[id].status == Failed || WorkerDied in s.runners[id].faults)
      && Apply(s, Mark(id, Answered)).table == s.table
    ensures Executing(Apply(s, Mark(id, Answered)), id) <==> !TurnedAway(s, id)
  {
    ReachableInv(s);
    FitsOf(s, id);
    MarkRefused(s.table, id, s.clock);
    hide IndexHolds, Taken, Marked, Inv;
  }

  /** A second operation can begin exactly when the first had its row settled under it: while
      i executes, and no third task is doing the same work, a settled or pending j is let
      through just then. */
  lemma SecondBeginsExactly(s: State, i: nat, j: nat)
    requires Reachable(s) && Executing(s, i) && i != j && Enabled(s, Mark(j, Answered))
    requires SameWork(s.table[i], s.table[j])
    requires forall k :: k in s.table && k != i && k != j && Active(s.table[k]) ==> !SameWork(s.table[k], s.table[j])
    ensures Executing(Apply(s, Mark(j, Answered)), j) <==> SettledUnder(s, i)
  {
    RefusalExactly(s, j);
    ReachableInv(s);
    FitsOf(s, i);
    hide Fits, Inv, Apply, TurnedAway;
    ActivePair(s.table, i, j);
    ExecutingIs(s, i);
    assert Active(s.table[i]) ==> Taken(s.table, j, s.table[j]);
  }

  lemma ActivePair(table: Table, i: nat, j: nat)
    requires IndexHolds(table) && i in table && j in table && i != j && SameWork(table[i], table[j])
    ensures Active(table[i]) ==> !Active(table[j])
  {}

  lemma ExecutingIs(s: State, id: nat)
    requires Executing(s, id) && Fits(s.table[id], s.runners[id], s.clock)
    ensures Active(s.table[id]) <==> !SettledUnder(s, id)
  {}

  /** Every row, in every reachable state, has the times, result and error its status calls for. */
  lemma HistoryHolds(s: State, id: nat)
    requires Reachable(s) && id in s.table
    ensures id in s.runners && History(s.table[id], s.clock, Odd(s.runners[id]))
  {
    ReachableInv(s);
    FitsOf(s, id);
  }

  /** What no step takes back. */
  predicate Keeps(s: State, s': State, id: nat)
    requires id in s.table
  {
    && id in s'.table && id in s'.runners
    && s'.table[id].createdAt == s.table[id].createdAt
    && SameWork(s'.table[id], s.table[id])
    && (s.table[id].startedAt.Some? ==> s'.table[id].startedAt == s.table[id].startedAt)
    && (id in s.runners ==> s.runners[id].faults <= s'.runners[id].faults)
    && (s.table[id].status == Succeeded ==>
        s'.table[id].status == Succeeded || WorkerDied in s'.runners[id].faults || Odd(s'.runners[id]))
  }

  lemma QuietKeeps(s: State, st: Step)
    requires FitsAt(s, st.id) && (Quiet(st) || !Enabled(s, st))
    ensures Keeps(s, Apply(s, st), st.id)
  {
    hide IndexHolds, History, Fits, NewTask, Marked, Reported, Finished;
  }

  lemma MarkKeeps(s: State, st: Step)
    requires FitsAt(s, st.id) && Enabled(s, st) && st.Mark?
    ensures Keeps(s, Apply(s, st), st.id)
  {
    hide IndexHolds, History;
  }

  lemma SettleKeeps(s: State, st: Step)
    requires FitsAt(s, st.id) && Enabled(s, st) && (st.Settle? || st.Finish? || st.Report?)
    ensures Keeps(s, Apply(s, st), st.id)
  {
    hide IndexHolds, History;
  }

  lemma CreatesNew(s: State, st: Step)
    requires Enabled(s, st) && st.Create?
    ensures st.id !in s.table
  {}

  lemma StepKeeps(s: State, st: Step, id: nat)
    requires Inv(s) && id in s.table
    ensures Keeps(s, Apply(s, st), id)
  {
    FitsOf(s, id);
    if st.Create? && Enabled(s, st) {
      CreatesNew(s, st);
    }
    hide Act, Fits, Inv, Enabled, Apply, Odd;
    if st.id != id {
      StepIsLocal(s, st, id);
    } else if Quiet(st) || !Enabled(s, st) {
      QuietKeeps(s, st);
    } else if st.Mark? {
      MarkKeeps(s, st);
    } else {
      SettleKeeps(s, st);
    }
  }

  lemma KeepsTwice(s: State, m: State, s': State, id: nat)
    requires id in s.table && Keeps(s, m, id) && Keeps(m, s', id) && Inv(s)
    ensures Keeps(s, s', id)
  {
    FitsOf(s, id);
    hide Inv, Fits;
  }

  lemma {:induction false} KeepsAlong(s: State, steps: seq<Step>, id: nat)
    requires Inv(s) && id in s.table
    ensures Keeps(s, Exec(s, steps), id)
    decreases |steps|
  {
    if steps == [] {
      FitsOf(s, id);
    } else {
      StepKeeps(s, steps[0], id);
      StepKeepsInv(s, steps[0]);
      KeptRow(s, Apply(s, steps[0]), id);
      hide *;
      KeepsAlong(Apply(s, steps[0]), steps[1..], id);
      ExecUnfold(s, steps);
      KeepsTwice(s, Apply(s, steps[0]), Exec(s, steps), id);
    }
  }

  /** Over every run, from any reachable state: the first start time is never changed, and a
      task that succeeded stays succeeded unless a worker died on it or its enqueuer settled
      it unknowing. */
  lemma RunKeeps(s: State, steps: seq<Step>, id: nat)
    requires Reachable(s) && id in s.table
    ensures Keeps(s, Exec(s, steps), id)
  {
    ReachableInv(s);
    KeepsAlong(s, steps, id);
  }

  lemma KeptRow(s: State, m: State, id: nat)
    requires id in s.table && Keeps(s, m, id)
    ensures id in m.table
  {}

  /** How many more attempts a job can have. */
  function AttemptsLeft(phase: Phase): nat {
    match phase
    case Created => 0
    case Waiting(left) => left
    case Picked(left) => left
    case Operating(left) => left
    case Finishing(left, _) => left
    case Returning(left, _) => left
    case Over => 0
  }

  /** How many attempts of a job begin in the course of a run. */
  function Attempts(s: State, steps: seq<Step>, id: nat): nat
    decreases |steps|
  {
    if steps == [] then 0
    else
      (if Enabled(s, steps[0]) && steps[0] == Pick(id) then 1 else 0)
      + Attempts(Apply(s, steps[0]), steps[1..], id)
  }

  lemma AttemptStep(s: State, st: Step, id: nat)
    requires id in s.table && id in s.runners && !s.runners[id].phase.Created?
    ensures var s' := Apply(s, st);
      && id in s'.table && id in s'.runners && !s'.runners[id].phase.Created?
      && AttemptsLeft(s'.runners[id].phase) + (if Enabled(s, st) && st == Pick(id) then 1 else 0)
        <= AttemptsLeft(s.runners[id].phase)
  {
    if st.id != id {
      StepIsLocal(s, st, id);
    }
    hide IndexHolds, NewTask, Marked, Reported, Finished;
  }

  /** Once a job is queued it is attempted no oftener than its budget allows, whatever becomes of
      its workers. */
  lemma {:induction false} AttemptsBounded(s: State, steps: seq<Step>, id: nat)
    requires id in s.table && id in s.runners && !s.runners[id].phase.Created?
    ensures Attempts(s, steps, id) <= AttemptsLeft(s.runners[id].phase)
    decreases |steps|
  {
    if steps != [] {
      AttemptStep(s, steps[0], id);
      hide Apply, AttemptsLeft;
      AttemptsBounded(Apply(s, steps[0]), steps[1..], id);
    }
  }
}

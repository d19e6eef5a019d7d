/** When a settled task is final, and when it can be set running again. */
module Finality {
  import opened Text
  import opened Tasks
  import opened Protocol

  /** Some run leads there. */
  ghost predicate Can(s: State, good: State -> bool) {
    exists steps :: good(Exec(s, steps))
  }

  lemma CanNow(s: State, good: State -> bool)
    requires good(s)
    ensures Can(s, good)
  {
    assert Exec(s, []) == s;
  }

  lemma CanLater(s: State, steps: seq<Step>, good: State -> bool)
    requires Can(Exec(s, steps), good)
    ensures Can(s, good)
  {
    var more :| good(Exec(Exec(s, steps), more));
    ExecAppend(s, steps, more);
    assert good(Exec(s, steps + more));
  }

  lemma CanNext(s: State, st: Step, good: State -> bool)
    requires Can(Apply(s, st), good)
    ensures Can(s, good)
  {
    hide Apply, Can;
    assert [st][1..] == [];
    assert Exec(s, [st]) == Exec(Apply(s, st), []);
    CanLater(s, [st], good);
  }

  predicate Runs(s: State, id: nat) {
    id in s.table && s.table[id].status == Running
  }

  function RunsNow(id: nat): State -> bool {
    s => Runs(s, id)
  }

  predicate Stays(s: State, id: nat, t: Task) {
    id in s.table && s.table[id] == t
  }

  function Changed(id: nat, t: Task): State -> bool {
    s => !Stays(s, id, t)
  }

  /** Whatever happens, the row stays as it is. */
  ghost predicate Final(s: State, id: nat)
    requires id in s.table
  {
    forall steps :: Stays(Exec(s, steps), id, s.table[id])
  }

  /** Nothing is left to do for the task but to give a job back that has no attempt left. */
  predicate Out(s: State, id: nat) {
    && id in s.table && id in s.runners && !s.runners[id].owing
    && var phase := s.runners[id].phase;
    phase.Over? || (phase.Returning? && phase.left == 0)
  }

  /** A settled task whose work is held by another that nothing will ever settle. */
  predicate Shut(s: State, id: nat, j: nat) {
    && id in s.table && id in s.runners && !Active(s.table[id])
    && j != id && Out(s, j) && Active(s.table[j]) && SameWork(s.table[j], s.table[id])
  }

  /** Between attempts, the enqueuer having nothing to settle. */
  predicate Idle(s: State, id: nat) {
    && id in s.table && id in s.runners && !s.runners[id].owing
    && var phase := s.runners[id].phase;
    phase.Waiting? || phase.Picked? || phase.Returning? || phase.Over?
  }

  predicate Blocked(s: State, id: nat, j: nat) {
    Shut(s, id, j) && Idle(s, id)
  }

  lemma OutStep(s: State, st: Step, id: nat)
    requires Out(s, id)
    ensures var s' := Apply(s, st); Out(s', id) && s'.table[id] == s.table[id]
  {
    if st.id != id {
      StepIsLocal(s, st, id);
    }
    hide IndexHolds, NewTask, Marked, Reported, Finished;
  }

  lemma ShutStep(s: State, st: Step, id: nat, j: nat)
    requires IndexHolds(s.table) && Shut(s, id, j)
    ensures Shut(Apply(s, st), id, j)
  {
    OutStep(s, st, j);
    if st.id == id {
      MarkRefused(s.table, id, s.clock);
      assert Taken(s.table, id, s.table[id]);
      ShutWrites(s, st, id);
    } else {
      StepIsLocal(s, st, id);
    }
    hide Apply, Out, IndexHolds, Taken;
  }

  /** What is done to a settled task that cannot be marked running. */
  lemma ShutWrites(s: State, st: Step, id: nat)
    requires st.id == id && id in s.table && id in s.runners && !Active(s.table[id])
    requires MarkRunningIn(s.table, id, s.clock).None?
    ensures var s' := Apply(s, st);
      id in s'.table && id in s'.runners && !Active(s'.table[id]) && SameWork(s'.table[id], s.table[id])
    ensures Idle(s, id) ==> Idle(Apply(s, st), id) && Apply(s, st).table[id] == s.table[id]
  {
    hide IndexHolds, NewTask, Marked;
  }

  lemma BlockedStep(s: State, st: Step, id: nat, j: nat)
    requires IndexHolds(s.table) && Blocked(s, id, j)
    ensures var s' := Apply(s, st); Blocked(s', id, j) && s'.table[id] == s.table[id]
  {
    ShutStep(s, st, id, j);
    if st.id == id {
      MarkRefused(s.table, id, s.clock);
      assert Taken(s.table, id, s.table[id]);
      ShutWrites(s, st, id);
    } else {
      StepIsLocal(s, st, id);
    }
    hide Apply, Out, IndexHolds, Taken;
  }

  lemma {:induction false} OutStays(s: State, steps: seq<Step>, id: nat)
    requires Out(s, id)
    ensures var s' := Exec(s, steps); Out(s', id) && s'.table[id] == s.table[id]
    decreases |steps|
  {
    if steps != [] {
      OutStep(s, steps[0], id);
      hide Out, Apply;
      OutStays(Apply(s, steps[0]), steps[1..], id);
    }
  }

  lemma {:induction false} BlockedStays(s: State, steps: seq<Step>, id: nat, j: nat)
    requires Inv(s) && Blocked(s, id, j)
    ensures var s' := Exec(s, steps); Blocked(s', id, j) && s'.table[id] == s.table[id]
    decreases |steps|
  {
    if steps != [] {
      BlockedStep(s, steps[0], id, j);
      StepKeepsInv(s, steps[0]);
      hide Blocked, Apply, Inv;
      BlockedStays(Apply(s, steps[0]), steps[1..], id, j);
    }
  }

  lemma {:induction false} ShutStays(s: State, steps: seq<Step>, id: nat, j: nat)
    requires Inv(s) && Shut(s, id, j)
    ensures Shut(Exec(s, steps), id, j)
    decreases |steps|
  {
    if steps != [] {
      ShutStep(s, steps[0], id, j);
      StepKeepsInv(s, steps[0]);
      hide Shut, Apply, Inv;
      ShutStays(Apply(s, steps[0]), steps[1..], id, j);
    }
  }

  /** The job will or can have another attempt. */
  predicate CanRetry(phase: Phase) {
    phase.Waiting? || phase.Picked?
    || ((phase.Operating? || phase.Finishing? || phase.Returning?) && phase.left > 0)
  }

  /** Settled, with no attempt to come. */
  predicate Spent(s: State, id: nat) {
    && id in s.table && !Active(s.table[id])
    && id in s.runners && !s.runners[id].phase.Created? && !CanRetry(s.runners[id].phase)
  }

  lemma SpentStep(s: State, st: Step, id: nat)
    requires Spent(s, id)
    ensures Spent(Apply(s, st), id)
  {
    if st.id != id {
      StepIsLocal(s, st, id);
      hide Apply;
    } else {
      hide IndexHolds, NewTask, Marked;
    }
  }

  /** Without an attempt to come the task stays settled, on any run. */
  lemma {:induction false} SpentStaysSettled(s: State, steps: seq<Step>, id: nat)
    requires Spent(s, id)
    ensures Spent(Exec(s, steps), id)
    decreases |steps|
  {
    if steps != [] {
      SpentStep(s, steps[0], id);
      hide Spent, Apply;
      SpentStaysSettled(Apply(s, steps[0]), steps[1..], id);
    }
  }

  predicate Free(s: State, id: nat) {
    && FitsAt(s, id) && !Active(s.table[id]) && IndexHolds(s.table)
    && !Taken(s.table, id, s.table[id])
  }

  lemma PickedRuns(s: State, id: nat)
    requires Free(s, id) && s.runners[id].phase.Picked?
    ensures Can(s, RunsNow(id))
  {
    MarkRefused(s.table, id, s.clock);
    Marking(s, id);
    hide Free, Apply, Can;
    CanNow(Apply(s, Mark(id, Answered)), RunsNow(id));
    CanNext(s, Mark(id, Answered), RunsNow(id));
  }

  lemma Marking(s: State, id: nat)
    requires id in s.table && id in s.runners && s.runners[id].phase.Picked?
    requires MarkRunningIn(s.table, id, s.clock).Some?
    ensures Runs(Apply(s, Mark(id, Answered)), id)
  {
    hide IndexHolds;
  }

  lemma WaitingRuns(s: State, id: nat)
    requires Free(s, id) && s.runners[id].phase.Waiting?
    ensures Can(s, RunsNow(id))
  {
    Picking(s, id);
    hide Free, Apply, Can;
    PickedRuns(Apply(s, Pick(id)), id);
    CanNext(s, Pick(id), RunsNow(id));
  }

  lemma Picking(s: State, id: nat)
    requires Free(s, id) && s.runners[id].phase.Waiting?
    ensures var s' := Apply(s, Pick(id)); Free(s', id) && s'.runners[id].phase.Picked?
  {
    QuietFits(s, Pick(id));
    hide IndexHolds, Taken, Fits;
  }

  /** A worker dying gives the job back at any point. */
  lemma DyingRuns(s: State, id: nat)
    requires Free(s, id) && CanRetry(s.runners[id].phase)
    requires !s.runners[id].phase.Waiting? && !s.runners[id].phase.Picked?
    ensures Can(s, RunsNow(id))
  {
    Dying(s, id);
    hide Free, Apply, Can;
    WaitingRuns(Apply(s, WorkerDies(id)), id);
    CanNext(s, WorkerDies(id), RunsNow(id));
  }

  lemma Dying(s: State, id: nat)
    requires Free(s, id) && CanRetry(s.runners[id].phase)
    requires !s.runners[id].phase.Waiting? && !s.runners[id].phase.Picked?
    ensures var s' := Apply(s, WorkerDies(id)); Free(s', id) && s'.runners[id].phase.Waiting?
  {
    QuietFits(s, WorkerDies(id));
    hide IndexHolds, Taken, Fits;
  }

  lemma FreeRuns(s: State, id: nat)
    requires Free(s, id) && CanRetry(s.runners[id].phase)
    ensures Can(s, RunsNow(id))
  {
    hide Can, RunsNow;
    if s.runners[id].phase.Waiting? {
      WaitingRuns(s, id);
    } else if s.runners[id].phase.Picked? {
      PickedRuns(s, id);
    } else {
      DyingRuns(s, id);
    }
  }

  /** An active task that is not out can be settled by steps of its own. */

  predicate Settles(s: State, steps: seq<Step>, j: nat) {
    && (forall i :: 0 <= i < |steps| ==> steps[i].id == j)
    && j in Exec(s, steps).table && !Active(Exec(s, steps).table[j])
  }

  ghost predicate CanSettle(s: State, j: nat) {
    exists steps :: Settles(s, steps, j)
  }

  lemma SettlesNow(s: State, j: nat)
    requires j in s.table && !Active(s.table[j])
    ensures CanSettle(s, j)
  {
    assert Settles(s, [], j);
  }

  lemma SettlesNext(s: State, st: Step, j: nat)
    requires st.id == j && CanSettle(Apply(s, st), j)
    ensures CanSettle(s, j)
  {
    var steps :| Settles(Apply(s, st), steps, j);
    var all := [st] + steps;
    assert all[1..] == steps;
    hide Apply;
    ExecUnfold(s, all);
    assert Settles(s, all, j);
  }

  /** Where settling can start from. */
  predicate Ready(s: State, j: nat) {
    j in s.table && j in s.runners && Active(s.table[j]) && IndexHolds(s.table)
  }

  lemma FinishingSettles(s: State, j: nat)
    requires Ready(s, j) && s.runners[j].phase.Finishing?
    ensures CanSettle(s, j)
  {
    SettlingGoesThrough(s.table, j, Progress(0, 0, ""), s.runners[j].phase.outcome, s.clock);
    hide IndexHolds, CanSettle;
    SettlesNow(Apply(s, Finish(j, true)), j);
    SettlesNext(s, Finish(j, true), j);
  }

  lemma OperatingSettles(s: State, j: nat)
    requires Ready(s, j) && s.runners[j].phase.Operating?
    ensures CanSettle(s, j)
  {
    hide IndexHolds, CanSettle;
    FinishingSettles(Apply(s, End(j, Done(None))), j);
    SettlesNext(s, End(j, Done(None)), j);
  }

  lemma PickedSettles(s: State, j: nat)
    requires Ready(s, j) && s.runners[j].phase.Picked?
    ensures CanSettle(s, j)
  {
    MarkRefused(s.table, j, s.clock);
    StepKeepsIndex(s, Mark(j, Answered));
    hide IndexHolds, CanSettle;
    OperatingSettles(Apply(s, Mark(j, Answered)), j);
    SettlesNext(s, Mark(j, Answered), j);
  }

  lemma WaitingSettles(s: State, j: nat)
    requires Ready(s, j) && s.runners[j].phase.Waiting? && s.runners[j].phase.left > 0
    ensures CanSettle(s, j)
  {
    hide IndexHolds, CanSettle;
    PickedSettles(Apply(s, Pick(j)), j);
    SettlesNext(s, Pick(j), j);
  }

  lemma ReturningSettles(s: State, j: nat)
    requires Ready(s, j) && s.runners[j].phase.Returning? && s.runners[j].phase.left > 0
    ensures CanSettle(s, j)
  {
    hide IndexHolds, CanSettle;
    WaitingSettles(Apply(s, WorkerDies(j)), j);
    SettlesNext(s, WorkerDies(j), j);
  }

  lemma OwingSettles(s: State, j: nat)
    requires Ready(s, j) && s.runners[j].owing
    ensures CanSettle(s, j)
  {
    SettlingGoesThrough(s.table, j, Progress(0, 0, ""), Broke(""), s.clock);
    hide IndexHolds, CanSettle;
    SettlesNow(Apply(s, Settle(j, "", true)), j);
    SettlesNext(s, Settle(j, "", true), j);
  }

  lemma CreatedSettles(s: State, j: nat)
    requires Ready(s, j) && s.runners[j].phase.Created?
    ensures CanSettle(s, j)
  {
    hide IndexHolds, CanSettle;
    OwingSettles(Apply(s, Insert(j, 1, Lost)), j);
    SettlesNext(s, Insert(j, 1, Lost), j);
  }

  lemma TwinSettles(s: State, j: nat)
    requires Inv(s) && j in s.table && Active(s.table[j]) && !Out(s, j)
    ensures CanSettle(s, j)
  {
    FitsOf(s, j);
    hide IndexHolds, CanSettle, History;
    if s.runners[j].owing {
      OwingSettles(s, j);
    } else {
      match s.runners[j].phase
      case Created => CreatedSettles(s, j);
      case Waiting(_) => WaitingSettles(s, j);
      case Picked(_) => PickedSettles(s, j);
      case Operating(_) => OperatingSettles(s, j);
      case Finishing(_, _) => FinishingSettles(s, j);
      case Returning(_, _) => ReturningSettles(s, j);
    }
  }

  /** Once its twin is settled, a task is free. */
  lemma TwinGone(s: State, steps: seq<Step>, id: nat, j: nat)
    requires Inv(s) && id in s.table && j in s.table && id != j && !Active(s.table[id])
    requires Active(s.table[j]) && SameWork(s.table[j], s.table[id]) && Settles(s, steps, j)
    ensures var s' := Exec(s, steps);
      Free(s', id) && s'.runners[id] == s.runners[id]
  {
    var s' := Exec(s, steps);
    ExecKeepsInv(s, steps);
    OthersAreLocal(s, steps, id);
    FitsOf(s, id);
    FitsOf(s', id);
    if Taken(s'.table, id, s'.table[id]) {
      var k :| k in s'.table && k != id && Active(s'.table[k]) && SameWork(s'.table[k], s'.table[id]);
      OthersAreLocal(s, steps, k);
      hide Fits, Exec;
      assert false;
    }
    hide Fits, Exec, Taken, IndexHolds;
  }

  lemma RetryRuns(s: State, id: nat)
    requires Inv(s) && id in s.table && !Active(s.table[id]) && id in s.runners
    requires CanRetry(s.runners[id].phase) && forall j :: !Shut(s, id, j)
    ensures Can(s, RunsNow(id))
  {
    FitsOf(s, id);
    if Taken(s.table, id, s.table[id]) {
      var j :| j in s.table && j != id && Active(s.table[j]) && SameWork(s.table[j], s.table[id]);
      assert !Shut(s, id, j);
      TwinSettles(s, j);
      var steps :| Settles(s, steps, j);
      TwinGone(s, steps, id, j);
      hide *;
      FreeRuns(Exec(s, steps), id);
      CanLater(s, steps, RunsNow(id));
    } else {
      hide Can, Fits, Taken;
      FreeRuns(s, id);
    }
  }

  /** A settled task can be set running again exactly when its job can have another attempt and
      no orphan, or one about to be, holds its work. Failed or succeeded makes no difference. */
  lemma RunsAgainExactly(s: State, id: nat)
    requires Reachable(s) && id in s.table && !Active(s.table[id])
    ensures id in s.runners
    ensures Can(s, RunsNow(id)) <==> CanRetry(s.runners[id].phase) && forall j :: !Shut(s, id, j)
  {
    ReachableInv(s);
    FitsOf(s, id);
    SettledIs(s, id);
    hide Inv, Fits, Shut, Spent, Exec, CanRetry;
    if CanRetry(s.runners[id].phase) && forall j :: !Shut(s, id, j) {
      RetryRuns(s, id);
    } else {
      forall steps
        ensures !Runs(Exec(s, steps), id)
      {
        if j :| Shut(s, id, j) {
          ShutStays(s, steps, id, j);
          ShutIs(Exec(s, steps), id, j);
        } else {
          SpentStaysSettled(s, steps, id);
          SpentIs(Exec(s, steps), id);
        }
      }
    }
  }

  lemma SettledIs(s: State, id: nat)
    requires Inv(s) && id in s.table && id in s.runners && !Active(s.table[id])
    ensures !s.runners[id].phase.Created?
    ensures !CanRetry(s.runners[id].phase) ==> Spent(s, id)
  {
    FitsOf(s, id);
    hide IndexHolds, History;
  }

  lemma ShutIs(s: State, id: nat, j: nat)
    requires Shut(s, id, j)
    ensures !Runs(s, id)
  {}

  lemma SpentIs(s: State, id: nat)
    requires Spent(s, id)
    ensures !Runs(s, id)
  {}

  /** An error other than the one a row has. */
  function OtherError(t: Task): string {
    if t.error == Some("") then "x" else ""
  }

  lemma OwingChanges(s: State, id: nat)
    requires Inv(s) && id in s.table && id in s.runners && s.runners[id].owing
    ensures Can(s, Changed(id, s.table[id]))
  {
    var st := Settle(id, OtherError(s.table[id]), true);
    SettlingGoesThrough(s.table, id, Progress(0, 0, ""), Broke(st.error), s.clock);
    hide IndexHolds, Can, Fits;
    CanNow(Apply(s, st), Changed(id, s.table[id]));
    CanNext(s, st, Changed(id, s.table[id]));
  }

  lemma FinishingChanges(s: State, id: nat, t: Task)
    requires IndexHolds(s.table) && id in s.table && id in s.runners && s.runners[id].phase.Finishing?
    requires Finished(s.table[id], s.runners[id].phase.outcome, s.clock) != t
    ensures Can(s, Changed(id, t))
  {
    SettlingGoesThrough(s.table, id, Progress(0, 0, ""), s.runners[id].phase.outcome, s.clock);
    hide IndexHolds, Can;
    CanNow(Apply(s, Finish(id, true)), Changed(id, t));
    CanNext(s, Finish(id, true), Changed(id, t));
  }

  /** The same outcome recorded later leaves another finish time. */
  lemma LaterChanges(s: State, id: nat)
    requires Inv(s) && id in s.table && !Active(s.table[id]) && id in s.runners && s.runners[id].phase.Finishing?
    ensures Can(s, Changed(id, s.table[id]))
  {
    FitsOf(s, id);
    var st := Create(id, "", "", 0, Lost);
    hide IndexHolds, Can;
    FinishingChanges(Apply(s, st), id, s.table[id]);
    CanNext(s, st, Changed(id, s.table[id]));
  }

  lemma OperatingChanges(s: State, id: nat)
    requires Inv(s) && id in s.table && id in s.runners && s.runners[id].phase.Operating?
    ensures Can(s, Changed(id, s.table[id]))
  {
    var st := End(id, Broke(OtherError(s.table[id])));
    hide IndexHolds, Can, Fits;
    FinishingChanges(Apply(s, st), id, s.table[id]);
    CanNext(s, st, Changed(id, s.table[id]));
  }

  lemma RunningIsChanged(s: State, id: nat)
    requires id in s.table && !Active(s.table[id]) && Can(s, RunsNow(id))
    ensures Can(s, Changed(id, s.table[id]))
  {
    var steps :| RunsNow(id)(Exec(s, steps));
    hide Exec;
    assert Changed(id, s.table[id])(Exec(s, steps));
  }

  lemma CanChange(s: State, id: nat)
    requires Inv(s) && id in s.table && id in s.runners && !Active(s.table[id])
    requires !Out(s, id) && forall j :: !Blocked(s, id, j)
    ensures Can(s, Changed(id, s.table[id]))
  {
    SettledIs(s, id);
    hide Inv, Shut, Can, Active;
    var phase := s.runners[id].phase;
    if s.runners[id].owing {
      OwingChanges(s, id);
    } else if phase.Operating? {
      OperatingChanges(s, id);
    } else if phase.Finishing? {
      LaterChanges(s, id);
    } else {
      assert forall j :: Shut(s, id, j) ==> Blocked(s, id, j);
      RetryRuns(s, id);
      RunningIsChanged(s, id);
    }
  }

  /** A settled task never changes again exactly when it is out, or between attempts with its
      work held for good by another task that is. */
  lemma FinalExactly(s: State, id: nat)
    requires Reachable(s) && id in s.table && !Active(s.table[id])
    ensures Final(s, id) <==> Out(s, id) || exists j :: Blocked(s, id, j)
  {
    ReachableInv(s);
    FitsOf(s, id);
    hide Inv, Fits, Out, Blocked, Exec, Active;
    if Out(s, id) {
      forall steps
        ensures Stays(Exec(s, steps), id, s.table[id])
      {
        OutStays(s, steps, id);
        OutHas(Exec(s, steps), id);
      }
    } else if j :| Blocked(s, id, j) {
      forall steps
        ensures Stays(Exec(s, steps), id, s.table[id])
      {
        BlockedStays(s, steps, id, j);
        BlockedHas(Exec(s, steps), id, j);
      }
    } else {
      CanChange(s, id);
      var steps :| Changed(id, s.table[id])(Exec(s, steps));
      assert !Stays(Exec(s, steps), id, s.table[id]);
    }
  }

  lemma OutHas(s: State, id: nat)
    requires Out(s, id)
    ensures id in s.table
  {}

  lemma BlockedHas(s: State, id: nat, j: nat)
    requires Blocked(s, id, j)
    ensures id in s.table
  {}
}

/** Tasks that nothing will ever settle: exactly which step leaves one, and what it costs. */
module Orphans {
  import opened Text
  import opened Tasks
  import opened Protocol

  /** Active, with no job and no enqueuer. */
  predicate Orphan(s: State, id: nat) {
    && id in s.table && Active(s.table[id])
    && id in s.runners && s.runners[id].phase == Over && !s.runners[id].owing
  }

  /** The steps that orphan a task: an accepted Create that its enqueuer does not hear of; the
      enqueuer dying, or its settling being lost, with no job queued; a mark lost or unheard, a
      return or a death with no attempt left and the row still active; and a return after
      success whose recording was lost. */
  predicate Orphaning(s: State, st: Step)
    requires Enabled(s, st)
  {
    match st
    case Create(id, user, key, total, fate) =>
      fate == Unheard && CreateIn(s.table, id, user, key, total, s.clock).Some?
    case Settle(id, _, up) => !up && s.runners[id].phase.Over? && Active(s.table[id])
    case EnqueuerDies(id) => (s.runners[id].phase.Created? || s.runners[id].phase.Over?) && Active(s.table[id])
    case Mark(id, fate) =>
      && s.runners[id].phase.left == 0 && !s.runners[id].owing
      && (match fate
          case Answered => false
          case Lost => Active(s.table[id])
          case Unheard => MarkRunningIn(s.table, id, s.clock).Some?)
    case Return(id) =>
      && (s.runners[id].phase.outcome.Done? || s.runners[id].phase.left == 0)
      && !s.runners[id].owing && Active(s.table[id])
    case WorkerDies(id) => s.runners[id].phase.left == 0 && !s.runners[id].owing && Active(s.table[id])
    case _ => false
  }

  lemma CreateOrphans(s: State, st: Step)
    requires Inv(s) && Enabled(s, st) && st.Create?
    ensures Orphan(Apply(s, st), st.id) <==> Orphaning(s, st)
  {
    hide IndexHolds, Inv;
  }

  lemma MarkOrphans(s: State, st: Step)
    requires FitsAt(s, st.id) && IndexHolds(s.table) && Enabled(s, st) && st.Mark?
    ensures Orphan(Apply(s, st), st.id) <==> Orphaning(s, st)
  {
    MarkRefused(s.table, st.id, s.clock);
    hide IndexHolds, Taken, History;
  }

  lemma SettleOrphans(s: State, st: Step)
    requires FitsAt(s, st.id) && IndexHolds(s.table) && Enabled(s, st) && (st.Settle? || st.Report? || st.Finish?)
    ensures Orphan(Apply(s, st), st.id) <==> Orphaning(s, st)
  {
    SettlingGoesThrough(s.table, st.id, Progress(0, 0, ""), if st.Settle? then Broke(st.error) else Done(None),
      s.clock);
    hide IndexHolds, Taken, History;
  }

  lemma QuietOrphans(s: State, st: Step)
    requires FitsAt(s, st.id) && Enabled(s, st) && Quiet(st)
    ensures Orphan(Apply(s, st), st.id) <==> Orphaning(s, st)
  {
    hide IndexHolds, History, NewTask, Marked, Reported, Finished;
  }

  /** A step orphans its task exactly when it is one of those, and no other task ever. */
  lemma OrphansExactly(s: State, st: Step, id: nat)
    requires Reachable(s) && Enabled(s, st)
    ensures id == st.id ==> (Orphan(Apply(s, st), id) <==> Orphaning(s, st))
    ensures id != st.id ==> (Orphan(Apply(s, st), id) <==> Orphan(s, id))
  {
    ReachableInv(s);
    if id != st.id {
      StepIsLocal(s, st, id);
      hide Apply;
    } else if st.Create? {
      CreateOrphans(s, st);
    } else {
      EnabledRow(s, st);
      FitsOf(s, id);
      hide Apply, Orphan, Orphaning, Fits, Enabled;
      if Quiet(st) {
        QuietOrphans(s, st);
      } else if st.Mark? {
        MarkOrphans(s, st);
      } else {
        SettleOrphans(s, st);
      }
    }
  }

  lemma EnabledRow(s: State, st: Step)
    requires Enabled(s, st) && !st.Create?
    ensures st.id in s.table
  {}

  /** A lost Finish orphans the task, once its job returns, exactly when the operation had
      succeeded, on any attempt, or this was the last attempt; but not if its enqueuer, unaware
      of the job, has settled the row or is about to. */
  lemma LostFinishExactly(s: State, id: nat)
    requires Reachable(s) && Enabled(s, Finish(id, false))
    ensures var r := s.runners[id];
      && (Orphan(Apply(Apply(s, Finish(id, false)), Return(id)), id) <==>
          (r.phase.outcome.Done? || r.phase.left == 0) && Active(s.table[id]) && !r.owing)
      && (!Odd(r) ==> Active(s.table[id]) && !r.owing)
  {
    ReachableInv(s);
    FitsOf(s, id);
    hide IndexHolds, History, Inv, NewTask, Marked, Reported, Finished;
  }

  predicate OnlyFaults(s: State, fs: set<Fault>) {
    forall id :: id in s.runners ==> s.runners[id].faults <= fs
  }

  /** Without a lost or unheard call and without a death no task is orphaned; where only Finish
      can be lost, a lost Finish made the orphan. */
  lemma NoOrphans(s: State, id: nat)
    requires Reachable(s)
    ensures OnlyFaults(s, {}) ==> !Orphan(s, id)
    ensures OnlyFaults(s, {FinishLost}) && Orphan(s, id) ==> FinishLost in s.runners[id].faults
  {
    ReachableInv(s);
    if Orphan(s, id) {
      FitsOf(s, id);
      hide Inv, History;
      var f :| f in s.runners[id].faults;
    }
  }

  lemma Disabled(s: State, st: Step)
    requires !Enabled(s, st)
    ensures Apply(s, st) == s.(clock := s.clock + 1)
  {}

  /** The k-th step of a run orphans the task. */
  predicate MadeAt(steps: seq<Step>, k: nat, id: nat)
    requires k < |steps|
  {
    var s := Exec(START, steps[..k]);
    steps[k].id == id && Enabled(s, steps[k]) && Orphaning(s, steps[k])
  }

  /** Every orphan was made by one of the orphaning steps, taken on it. */
  lemma {:induction false} OrphanHasCause(steps: seq<Step>, id: nat)
    requires Orphan(Exec(START, steps), id)
    ensures exists k :: 0 <= k < |steps| && MadeAt(steps, k, id)
    decreases |steps|
  {
    if steps == [] {
      StartIsEmpty(id);
    } else {
      var n := |steps| - 1;
      var front, last := steps[..n], steps[n];
      var s := Exec(START, front);
      assert steps == front + [last];
      ExecSnoc(START, front, last);
      if Enabled(s, last) && last.id == id {
        assert Reachable(s);
        OrphansExactly(s, last, id);
        assert MadeAt(steps, n, id);
      } else {
        EarlierOrphan(s, last, id);
        OrphanHasCause(front, id);
        var k :| 0 <= k < |front| && MadeAt(front, k, id);
        assert front[..k] == steps[..k] && front[k] == steps[k];
        assert MadeAt(steps, k, id);
      }
    }
  }

  lemma EarlierOrphan(s: State, st: Step, id: nat)
    requires Orphan(Apply(s, st), id) && !(Enabled(s, st) && st.id == id)
    ensures Orphan(s, id)
  {
    if Enabled(s, st) {
      StepIsLocal(s, st, id);
    } else {
      Disabled(s, st);
    }
    hide Apply;
  }

  lemma StartIsEmpty(id: nat)
    ensures !Orphan(Exec(START, []), id)
  {}

  lemma OrphanStays(s: State, st: Step, id: nat)
    requires Orphan(s, id)
    ensures var s' := Apply(s, st); Orphan(s', id) && s'.table[id] == s.table[id]
  {
    if st.id != id {
      StepIsLocal(s, st, id);
    }
    hide IndexHolds, NewTask, Marked, Reported, Finished;
  }

  /** An orphan is never settled, and no request for its work is accepted again. */
  lemma {:induction false} OrphanBlocks(s: State, steps: seq<Step>, id: nat, next: nat, total: int)
    requires Inv(s) && Orphan(s, id)
    ensures var s' := Exec(s, steps);
      && Orphan(s', id) && s'.table[id] == s.table[id]
      && (next !in s'.table ==>
          CreateIn(s'.table, next, s.table[id].user, s.table[id].dedupKey, total, s'.clock).None?)
    decreases |steps|
  {
    if steps == [] {
      if next !in s.table {
        CreateRefused(s.table, next, s.table[id].user, s.table[id].dedupKey, total, s.clock);
      }
    } else {
      OrphanStays(s, steps[0], id);
      StepKeepsInv(s, steps[0]);
      hide Inv, Orphan, Apply, CreateIn;
      OrphanBlocks(Apply(s, steps[0]), steps[1..], id, next, total);
    }
  }
}

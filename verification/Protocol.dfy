/** Background tasks as a state machine. One step is one SQL statement, one call into the job
    queue, or one process event, so enqueuers and workers interleave freely. A call can be
    lost, or take effect with its reply lost, and a process can die. */
module Protocol {
  import opened Text
  import opened Tasks

  /** Where the work of a task has got to: with its enqueuer, with its job, which has so many
      attempts left, or with nobody any more. */
  datatype Phase =
    | Created
    | Waiting(left: nat) | Picked(left: nat) | Operating(left: nat)
    | Finishing(left: nat, outcome: Outcome) | Returning(left: nat, outcome: Outcome)
    | Over

  /** What has gone wrong around a task, remembered for the statements below. */
  datatype Fault =
    | EnqueuerDied | CreateUnheard | InsertUnheard | SettleLost
    | MarkLost | MarkUnheard | FinishLost | WorkerDied

  /** owing: the enqueuer has been told that the job was not queued and is about to settle the
      row, whether that was true or not. */
  datatype Runner = Runner(phase: Phase, owing: bool, faults: set<Fault>)

  datatype State = State(table: Table, runners: map<nat, Runner>, clock: nat)

  const START: State := State(map[], map[], 0)

  /** Where the reply makes no difference to the caller, up says whether the call arrives. */
  datatype Step =
    | Create(id: nat, user: string, key: string, total: int, fate: Fate)
    | Insert(id: nat, budget: nat, fate: Fate)
    | Settle(id: nat, error: string, up: bool)
    | EnqueuerDies(id: nat)
    | Pick(id: nat)
    | Mark(id: nat, fate: Fate)
    | Report(id: nat, progress: Progress, up: bool)
    | End(id: nat, outcome: Outcome)
    | Finish(id: nat, up: bool)
    | Return(id: nat)
    | WorkerDies(id: nat)

  predicate Enabled(s: State, st: Step) {
    match st
    case Create(id, _, _, _, _) => id !in s.table && id !in s.runners
    case _ =>
      && st.id in s.table && st.id in s.runners
      && var phase := s.runners[st.id].phase;
      match st
      case Create(_, _, _, _, _) => true
      case Insert(_, budget, _) => phase.Created? && budget > 0
      case Settle(_, _, _) => s.runners[st.id].owing
      case EnqueuerDies(_) => phase.Created? || s.runners[st.id].owing
      case Pick(_) => phase.Waiting? && phase.left > 0
      case Mark(_, _) => phase.Picked?
      case Report(_, _, _) => phase.Operating?
      case End(_, _) => phase.Operating?
      case Finish(_, _) => phase.Finishing?
      case Return(_) => phase.Returning?
      case WorkerDies(_) => phase.Picked? || phase.Operating? || phase.Finishing? || phase.Returning?
  }

  /** The steps an enqueuer takes; the others are the job's. */
  predicate OfEnqueuer(st: Step) {
    st.Create? || st.Insert? || st.Settle? || st.EnqueuerDies?
  }

  /** A job whose attempt failed goes back to the queue until its budget is spent. */
  function GiveBack(left: nat): Phase {
    if left > 0 then Waiting(left) else Over
  }

  function Move(s: State, id: nat, phase: Phase): State
    requires id in s.runners
  {
    s.(runners := s.runners[id := s.runners[id].(phase := phase)])
  }

  function Suffer(s: State, id: nat, phase: Phase, fault: Fault): State
    requires id in s.runners
  {
    s.(runners := s.runners[id := s.runners[id].(phase := phase, faults := s.runners[id].faults + {fault})])
  }

  function Owing(s: State, id: nat, owing: bool): State
    requires id in s.runners
  {
    s.(runners := s.runners[id := s.runners[id].(owing := owing)])
  }

  function Written(s: State, next: Option<Table>): State {
    if next.Some? then s.(table := next.value) else s
  }

  function Act(s: State, st: Step): State
    requires Enabled(s, st)
  {
    match st
    case Create(id, user, key, total, fate) =>
      var next := CreateIn(s.table, id, user, key, total, s.clock);
      if fate == Lost || next.None? then s
      else
        var r := if fate == Answered then Runner(Created, false, {}) else Runner(Over, false, {CreateUnheard});
        State(next.value, s.runners[id := r], s.clock)
    case Insert(id, budget, fate) =>
      (match fate
       case Answered => Move(s, id, Waiting(budget))
       case Lost => Owing(Move(s, id, Over), id, true)
       case Unheard => Owing(Suffer(s, id, Waiting(budget), InsertUnheard), id, true))
    case Settle(id, error, up) =>
      var phase := s.runners[id].phase;
      if up then Owing(Written(s, FinishIn(s.table, id, Broke(error), s.clock)), id, false)
      else Owing(Suffer(s, id, phase, SettleLost), id, false)
    case EnqueuerDies(id) =>
      var phase := s.runners[id].phase;
      Owing(Suffer(s, id, if phase.Created? then Over else phase, EnqueuerDied), id, false)
    case Pick(id) => Move(s, id, Picked(s.runners[id].phase.left - 1))
    case Mark(id, fate) =>
      var left := s.runners[id].phase.left;
      var next := MarkRunningIn(s.table, id, s.clock);
      (match fate
       case Answered => if next.Some? then Move(Written(s, next), id, Operating(left)) else Move(s, id, GiveBack(left))
       case Lost => Suffer(s, id, GiveBack(left), MarkLost)
       case Unheard => Suffer(Written(s, next), id, GiveBack(left), MarkUnheard))
    case Report(id, progress, up) => if up then Written(s, ReportIn(s.table, id, progress)) else s
    case End(id, outcome) => Move(s, id, Finishing(s.runners[id].phase.left, outcome))
    case Finish(id, up) =>
      var phase := s.runners[id].phase;
      var done := Returning(phase.left, phase.outcome);
      if up then Move(Written(s, FinishIn(s.table, id, phase.outcome, s.clock)), id, done)
      else Suffer(s, id, done, FinishLost)
    case Return(id) =>
      var phase := s.runners[id].phase;
      Move(s, id, if phase.outcome.Done? then Over else GiveBack(phase.left))
    case WorkerDies(id) => Suffer(s, id, GiveBack(s.runners[id].phase.left), WorkerDied)
  }

  /** A step that is not enabled does nothing; time passes all the same. */
  function Apply(s: State, st: Step): State {
    (if Enabled(s, st) then Act(s, st) else s).(clock := s.clock + 1)
  }

  function Exec(s: State, steps: seq<Step>): State
    decreases |steps|
  {
    if steps == [] then s else Exec(Apply(s, steps[0]), steps[1..])
  }

  ghost predicate Reachable(s: State) {
    exists steps :: Exec(START, steps) == s
  }

  /** What a row may look like in each status. Its times are in order unless its enqueuer
      settled it under a job that ran all the same. */
  predicate History(t: Task, now: nat, odd: bool) {
    && t.createdAt <= now
    && (t.startedAt.Some? ==> t.startedAt.value <= now)
    && (t.finishedAt.Some? ==> t.finishedAt.value <= now)
    && (!odd && t.startedAt.Some? && t.finishedAt.Some? ==> t.startedAt.value <= t.finishedAt.value)
    && match t.status
       case Pending => t.startedAt.None? && t.finishedAt.None? && t.result.None? && t.error.None?
       case Running => t.startedAt.Some? && (t.error.Some? ==> t.finishedAt.Some?)
       case Succeeded => t.error.None? && t.startedAt.Some? && t.finishedAt.Some?
       case Failed => t.error.Some? && t.result.None? && t.finishedAt.Some?
  }

  predicate Records(t: Task, o: Outcome) {
    if o.Done? then t.status == Succeeded else t.status == Failed
  }

  /** The job was queued, and its enqueuer does not know. */
  predicate Odd(r: Runner) {
    InsertUnheard in r.faults
  }

  /** How a row's status and the phase of its work fit together. */
  predicate Fits(t: Task, r: Runner, now: nat) {
    && History(t, now, Odd(r))
    && (match r.phase
        case Created => t.status == Pending && !r.owing
        case Waiting(left) => left > 0
        case Picked(_) => true
        case Operating(_) => t.startedAt.Some? && (t.status == Running || (Odd(r) && t.status == Failed))
        case Finishing(_, _) => t.startedAt.Some? && (t.status == Running || (Odd(r) && t.status == Failed))
        case Returning(_, o) => t.startedAt.Some? && (Records(t, o) || FinishLost in r.faults || Odd(r))
        case Over => Active(t) ==> r.owing || r.faults != {})
    && (r.owing ==> Odd(r) || (r.phase.Over? && t.status == Pending))
    && (t.startedAt.None? ==> t.status == Pending || r.phase.Over? || Odd(r))
    && (t.status == Succeeded ==>
        WorkerDied in r.faults || r.phase.Over? || (r.phase.Returning? && r.phase.outcome.Done?))
  }

  predicate Inv(s: State) {
    && s.table.Keys == s.runners.Keys
    && IndexHolds(s.table)
    && forall id :: id in s.table ==> Fits(s.table[id], s.runners[id], s.clock)
  }

  /** What a step leaves alone: every other task, with its process. */
  lemma StepIsLocal(s: State, st: Step, id: nat)
    requires id != st.id
    ensures var s' := Apply(s, st);
      && (id in s'.table <==> id in s.table) && (id in s'.runners <==> id in s.runners)
      && (id in s.table ==> s'.table[id] == s.table[id])
      && (id in s.runners ==> s'.runners[id] == s.runners[id])
  {
    hide IndexHolds, NewTask, Marked, Reported, Finished;
  }

  lemma HistoryLater(t: Task, r: Runner, now: nat)
    requires Fits(t, r, now)
    ensures Fits(t, r, now + 1)
  {}

  lemma StepKeepsIndex(s: State, st: Step)
    requires IndexHolds(s.table)
    ensures IndexHolds(Apply(s, st).table)
  {
    hide IndexHolds, NewTask, Marked, Reported, Finished;
  }

  lemma StepKeepsKeys(s: State, st: Step)
    requires s.table.Keys == s.runners.Keys
    ensures Apply(s, st).table.Keys == Apply(s, st).runners.Keys
  {
    hide IndexHolds, NewTask, Marked, Reported, Finished;
  }

  /** Steps that write no row. */
  predicate Quiet(st: Step) {
    st.Insert? || st.EnqueuerDies? || st.Pick? || st.End? || st.Return? || st.WorkerDies?
  }

  predicate FitsAt(s: State, id: nat) {
    id in s.table && id in s.runners && Fits(s.table[id], s.runners[id], s.clock)
  }

  lemma QuietFits(s: State, st: Step)
    requires FitsAt(s, st.id) && (Quiet(st) || !Enabled(s, st))
    ensures FitsAt(Apply(s, st), st.id)
  {
    HistoryLater(s.table[st.id], s.runners[st.id], s.clock);
    HistoryTicks(s.table[st.id], s.clock);
    hide IndexHolds, History, NewTask, Marked, Reported, Finished;
  }

  lemma HistoryTicks(t: Task, now: nat)
    ensures History(t, now, false) ==> History(t, now, true)
    ensures forall odd :: History(t, now, odd) ==> History(t, now + 1, odd)
  {}

  lemma CreateFits(s: State, st: Step)
    requires st.Create? && Enabled(s, st) && st.id in Apply(s, st).table
    ensures FitsAt(Apply(s, st), st.id)
  {
    hide IndexHolds;
  }

  /** A refused mark finds its task settled. */
  lemma MarkFits(s: State, st: Step)
    requires FitsAt(s, st.id) && IndexHolds(s.table) && st.Mark? && Enabled(s, st)
    ensures FitsAt(Apply(s, st), st.id)
  {
    hide *;
    match st.fate
    case Answered => AnsweredFits(s, st);
    case Lost => LostMarkFits(s, st);
    case Unheard => UnheardFits(s, st);
  }

  lemma AnsweredFits(s: State, st: Step)
    requires FitsAt(s, st.id) && IndexHolds(s.table) && st.Mark? && st.fate == Answered && Enabled(s, st)
    ensures FitsAt(Apply(s, st), st.id)
  {
    MarkRefused(s.table, st.id, s.clock);
    hide IndexHolds, Taken;
  }

  lemma LostMarkFits(s: State, st: Step)
    requires FitsAt(s, st.id) && st.Mark? && st.fate == Lost && Enabled(s, st)
    ensures FitsAt(Apply(s, st), st.id)
  {
    HistoryTicks(s.table[st.id], s.clock);
    hide IndexHolds, History, Marked;
  }

  lemma UnheardFits(s: State, st: Step)
    requires FitsAt(s, st.id) && IndexHolds(s.table) && st.Mark? && st.fate == Unheard && Enabled(s, st)
    ensures FitsAt(Apply(s, st), st.id)
  {
    MarkRefused(s.table, st.id, s.clock);
    hide IndexHolds, Taken;
  }

  lemma WriteFits(s: State, st: Step)
    requires FitsAt(s, st.id) && IndexHolds(s.table) && Enabled(s, st)
    requires st.Settle? || st.Report? || st.Finish?
    ensures FitsAt(Apply(s, st), st.id)
  {
    hide *;
    if st.Report? {
      ReportFits(s, st);
    } else if st.Settle? {
      SettleFits(s, st);
    } else {
      FinishFits(s, st);
    }
  }

  lemma ReportFits(s: State, st: Step)
    requires FitsAt(s, st.id) && IndexHolds(s.table) && Enabled(s, st) && st.Report?
    ensures FitsAt(Apply(s, st), st.id)
  {
    SettlingGoesThrough(s.table, st.id, st.progress, Done(None), s.clock);
    hide IndexHolds, Taken;
  }

  lemma SettleFits(s: State, st: Step)
    requires FitsAt(s, st.id) && IndexHolds(s.table) && Enabled(s, st) && st.Settle?
    ensures FitsAt(Apply(s, st), st.id)
  {
    SettlingGoesThrough(s.table, st.id, Progress(0, 0, ""), Broke(st.error), s.clock);
    hide IndexHolds, Taken;
  }

  lemma FinishFits(s: State, st: Step)
    requires FitsAt(s, st.id) && IndexHolds(s.table) && Enabled(s, st) && st.Finish?
    ensures FitsAt(Apply(s, st), st.id)
  {
    EnabledIs(s, st);
    SettlingGoesThrough(s.table, st.id, Progress(0, 0, ""), s.runners[st.id].phase.outcome, s.clock);
    hide IndexHolds, Taken;
  }

  lemma EnabledIs(s: State, st: Step)
    requires Enabled(s, st) && st.Finish?
    ensures st.id in s.runners && s.runners[st.id].phase.Finishing?
  {}

  lemma StepFits(s: State, st: Step)
    requires IndexHolds(s.table) && s.table.Keys == s.runners.Keys
    requires st.id in s.table ==> FitsAt(s, st.id)
    requires st.id in Apply(s, st).table
    ensures FitsAt(Apply(s, st), st.id)
  {
    KeysAgree(s, st.id);
    hide FitsAt, Act, IndexHolds;
    if !Enabled(s, st) || (Quiet(st) && st.id in s.table) {
      QuietFits(s, st);
    } else if st.Create? {
      CreateFits(s, st);
    } else if st.Mark? {
      MarkFits(s, st);
    } else {
      WriteFits(s, st);
    }
  }

  lemma KeysAgree(s: State, id: nat)
    requires s.table.Keys == s.runners.Keys
    ensures id in s.table <==> id in s.runners
  {
    assert id in s.table.Keys <==> id in s.runners.Keys;
  }

  lemma StepKeepsInv(s: State, st: Step)
    requires Inv(s)
    ensures Inv(Apply(s, st))
  {
    var s' := Apply(s, st);
    StepKeepsIndex(s, st);
    StepKeepsKeys(s, st);
    ClockTicks(s, st);
    hide Act, Fits, IndexHolds, Enabled, Apply;
    forall id | id in s'.table
      ensures FitsAt(s', id)
    {
      if id == st.id {
        StepFits(s, st);
      } else {
        StepIsLocal(s, st, id);
        HistoryLater(s.table[id], s.runners[id], s.clock);
      }
    }
  }

  lemma ClockTicks(s: State, st: Step)
    ensures Apply(s, st).clock == s.clock + 1
  {}

  lemma FitsOf(s: State, id: nat)
    requires Inv(s) && id in s.table
    ensures id in s.runners && Fits(s.table[id], s.runners[id], s.clock)
  {
    hide Fits, IndexHolds;
    assert id in s.table.Keys;
  }

  lemma {:induction false} ExecKeepsInv(s: State, steps: seq<Step>)
    requires Inv(s)
    ensures Inv(Exec(s, steps))
    decreases |steps|
  {
    hide Inv, Apply;
    if steps != [] {
      StepKeepsInv(s, steps[0]);
      ExecKeepsInv(Apply(s, steps[0]), steps[1..]);
    }
  }

  lemma ReachableInv(s: State)
    requires Reachable(s)
    ensures Inv(s)
  {
    var steps :| Exec(START, steps) == s;
    ExecKeepsInv(START, steps);
  }

  lemma ExecUnfold(s: State, steps: seq<Step>)
    requires steps != []
    ensures Exec(s, steps) == Exec(Apply(s, steps[0]), steps[1..])
  {}

  lemma {:induction false} ExecAppend(s: State, a: seq<Step>, b: seq<Step>)
    ensures Exec(s, a + b) == Exec(Exec(s, a), b)
    decreases |a|
  {
    hide Apply;
    if a == [] {
      assert a + b == b;
    } else {
      assert (a + b)[1..] == a[1..] + b;
      ExecAppend(Apply(s, a[0]), a[1..], b);
    }
  }

  lemma ExecSnoc(s: State, steps: seq<Step>, st: Step)
    ensures Exec(s, steps + [st]) == Apply(Exec(s, steps), st)
  {
    hide Apply;
    ExecAppend(s, steps, [st]);
    assert [st][1..] == [];
    assert Exec(Exec(s, steps), [st]) == Exec(Apply(Exec(s, steps), st), []);
  }

  /** Steps other than the job's leave a job where it is. */
  predicate NotJob(steps: seq<Step>, id: nat) {
    forall i :: 0 <= i < |steps| ==> steps[i].id != id || OfEnqueuer(steps[i])
  }

  /** Steps other than the enqueuer's leave an enqueuer owing what it owes. */
  predicate NotEnqueuer(steps: seq<Step>, id: nat) {
    forall i :: 0 <= i < |steps| ==> steps[i].id != id || !OfEnqueuer(steps[i])
  }

  lemma EnqueuerLeavesJob(s: State, st: Step, id: nat)
    requires id in s.table && id in s.runners && !s.runners[id].phase.Created?
    requires st.id != id || OfEnqueuer(st)
    ensures var s' := Apply(s, st);
      id in s'.table && id in s'.runners && s'.runners[id].phase == s.runners[id].phase
  {
    if st.id != id {
      StepIsLocal(s, st, id);
    }
    hide IndexHolds, NewTask, Marked, Reported, Finished;
  }

  lemma JobLeavesOwing(s: State, st: Step, id: nat)
    requires id in s.table && id in s.runners && s.runners[id].owing
    requires st.id != id || !OfEnqueuer(st)
    ensures var s' := Apply(s, st); id in s'.table && id in s'.runners && s'.runners[id].owing
  {
    if st.id != id {
      StepIsLocal(s, st, id);
    }
    hide IndexHolds, NewTask, Marked, Reported, Finished;
  }

  lemma {:induction false} PhaseStays(s: State, steps: seq<Step>, id: nat)
    requires id in s.table && id in s.runners && !s.runners[id].phase.Created? && NotJob(steps, id)
    ensures var s' := Exec(s, steps);
      id in s'.table && id in s'.runners && s'.runners[id].phase == s.runners[id].phase
    decreases |steps|
  {
    hide Apply;
    if steps != [] {
      EnqueuerLeavesJob(s, steps[0], id);
      PhaseStays(Apply(s, steps[0]), steps[1..], id);
    }
  }

  lemma {:induction false} OwingStays(s: State, steps: seq<Step>, id: nat)
    requires id in s.table && id in s.runners && s.runners[id].owing && NotEnqueuer(steps, id)
    ensures var s' := Exec(s, steps); id in s'.table && id in s'.runners && s'.runners[id].owing
    decreases |steps|
  {
    hide Apply;
    if steps != [] {
      JobLeavesOwing(s, steps[0], id);
      OwingStays(Apply(s, steps[0]), steps[1..], id);
    }
  }

  /** Steps of other tasks leave a task and its process as they were. */
  lemma {:induction false} OthersAreLocal(s: State, steps: seq<Step>, id: nat)
    requires forall i :: 0 <= i < |steps| ==> steps[i].id != id
    ensures var s' := Exec(s, steps);
      && (id in s'.table <==> id in s.table) && (id in s'.runners <==> id in s.runners)
      && (id in s.table ==> s'.table[id] == s.table[id])
      && (id in s.runners ==> s'.runners[id] == s.runners[id])
    decreases |steps|
  {
    if steps != [] {
      StepIsLocal(s, steps[0], id);
      hide Apply;
      OthersAreLocal(Apply(s, steps[0]), steps[1..], id);
    }
  }
}

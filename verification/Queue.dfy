/** The queue that enqueues work and the attempt that runs it, statement by statement, with any
    other processes' steps in between. */
module Queue {
  import opened Text
  import opened Tasks
  import opened Protocol
  import opened Reports

  datatype Answer = Accepted(id: nat) | Existing(id: nat) | NoneFound | Refused

  /** What an operation does: reports, then its result or its error. */
  datatype Operation = Operation(reports: seq<Progress>, end: Ending)

  datatype Ending = Result(value: Option<string>, encodes: bool) | Error(text: string)

  function OutcomeOf(e: Ending): Outcome {
    match e
    case Result(value, encodes) => Done(if encodes then value else None)
    case Error(text) => Broke(text)
  }

  const REFRESH: string := "refresh_keys"

  /** Revoking a different key is different work. */
  function RevokeKey(keyId: string): string {
    "revoke_key:" + keyId
  }

  /** One work for each key, none of them a refresh. */
  lemma RevokeKeys(a: string, b: string)
    ensures RevokeKey(a) == RevokeKey(b) <==> a == b
    ensures RevokeKey(a) != REFRESH
  {
    assert a == b || RevokeKey(a)[|"revoke_key:"|..] != RevokeKey(b)[|"revoke_key:"|..];
    assert RevokeKey(a)[2] == 'v' && REFRESH[2] == 'f';
  }

  /** Which calls go through, and what other processes do in the gaps between an enqueuer's
      statements. */
  datatype EnqueueWeather = EnqueueWeather(
    create: Fate, findUp: bool, insert: Fate, settleUp: bool, gap: seq<Step>, gap': seq<Step>)

  /** The same for an attempt's. */
  datatype RunWeather = RunWeather(
    mark: Fate, reportUp: nat -> bool, finishUp: bool,
    first: seq<Step>, gap: nat -> seq<Step>, last: seq<Step>)

  /** Other processes' steps: none of them this task's. */
  predicate Elsewhere(steps: seq<Step>, id: nat) {
    forall i :: 0 <= i < |steps| ==> steps[i].id != id
  }

  /** Nobody else touches the task at all. */
  ghost predicate Alone(w: RunWeather, id: nat) {
    Elsewhere(w.first, id) && Elsewhere(w.last, id) && forall i :: Elsewhere(w.gap(i), id)
  }

  /** Nobody else runs the job; its enqueuer may still settle the row. */
  ghost predicate Clear(w: RunWeather, id: nat) {
    NotJob(w.first, id) && NotJob(w.last, id) && forall i :: NotJob(w.gap(i), id)
  }

  const LOST: string := "could not be queued"

  /** The statements of one request, with the gaps between them. */
  function EnqueueSteps(user: string, key: string, total: int, id: nat, budget: nat, w: EnqueueWeather,
      created: bool): seq<Step>
  {
    [Create(id, user, key, total, w.create)] + w.gap +
    if !created then []
    else if w.insert == Answered then [Insert(id, budget, Answered)]
    else [Insert(id, budget, w.insert)] + w.gap' + [Settle(id, LOST, w.settleUp)]
  }

  function ReportSteps(id: nat, ps: seq<Progress>, w: RunWeather): seq<Step> {
    if ps == [] then []
    else
      var last := |ps| - 1;
      ReportSteps(id, ps[..last], w) + [Report(id, ps[last], w.reportUp(last))] + w.gap(last)
  }

  /** The statements of one attempt, from marking to settling. */
  function AttemptSteps(id: nat, op: Operation, w: RunWeather, marked: bool): seq<Step> {
    [Mark(id, w.mark)] +
    if marked then OperateSteps(id, op, w) else []
  }

  function OperateSteps(id: nat, op: Operation, w: RunWeather): seq<Step> {
    w.first + ReportSteps(id, op.reports, w) + ([End(id, OutcomeOf(op.end))] + w.last + [Finish(id, w.finishUp)])
  }

  /** What an attempt that was marked leaves in its row. */
  predicate Leaves(t: Task, op: Operation, w: RunWeather, t': Task) {
    Settled(Shown(t, op.reports, w.reportUp), OutcomeOf(op.end), w.finishUp, t')
  }

  predicate Settled(t: Task, o: Outcome, up: bool, t': Task) {
    if up then t'.finishedAt.Some? && t' == Finished(t, o, t'.finishedAt.value) else t' == t
  }

  /** The same, field by field: what the operation ended with, what it reported last of what
      was recorded, and nothing else. */
  predicate Ran(t: Task, op: Operation, w: RunWeather, now: nat, t': Task) {
    && SameTask(t, t') && ShowsLatest(t, op.reports, w.reportUp, t')
    && t'.startedAt == (if t.startedAt.None? then Some(now) else t.startedAt)
    && if !w.finishUp then t'.status == Running && SameEnd(t, t')
       else
         && t'.finishedAt.Some?
         && match op.end
            case Result(value, encodes) =>
              t'.status == Succeeded && t'.result == (if encodes then value else None) && t'.error.None?
            case Error(text) => t'.status == Failed && t'.result.None? && t'.error == Some(text)
  }

  lemma RanIs(t: Task, op: Operation, w: RunWeather, now: nat)
    ensures forall t' :: Leaves(Marked(t, now), op, w, t') ==> Ran(t, op, w, now, t')
  {
    ShownIs(Marked(t, now), op.reports, w.reportUp);
    hide Shown;
  }

  class Queue {
    const tasks: TaskTable
    var runners: map<nat, Runner>
    /** Every step taken since the beginning, by anyone. */
    ghost var trace: seq<Step>

    constructor (tasks: TaskTable)
      requires tasks.rows == map[] && tasks.clock == 0
      ensures Valid() && this.tasks == tasks && trace == []
    {
      this.tasks, runners, trace := tasks, map[], [];
    }

    ghost function Now(): State
      reads this, tasks
    {
      State(tasks.rows, runners, tasks.clock)
    }

    /** Every state of the queue is one the protocol reaches. */
    ghost predicate Valid()
      reads this, tasks
    {
      Now() == Exec(START, trace)
    }

    lemma ValidIsReachable()
      requires Valid()
      ensures Reachable(Now()) && Inv(Now())
    {
      hide Exec;
      ReachableInv(Now());
    }

    predicate Has(id: nat)
      reads this, tasks
    {
      id in tasks.rows && id in runners
    }

    /** Let other processes take these steps. */
    method Others(steps: seq<Step>, ghost id: nat)
      requires Valid()
      modifies this, tasks
      ensures Valid() && trace == old(trace) + steps
      ensures Elsewhere(steps, id) ==>
        && Has(id) == old(Has(id)) && (id in tasks.rows <==> id in old(tasks.rows))
        && (Has(id) ==> tasks.rows[id] == old(tasks.rows[id]) && runners[id] == old(runners[id]))
      ensures NotJob(steps, id) && old(Has(id)) && !old(runners)[id].phase.Created? ==>
        Has(id) && runners[id].phase == old(runners)[id].phase
      ensures NotEnqueuer(steps, id) && old(Has(id)) && old(runners)[id].owing ==> Has(id) && runners[id].owing
    {
      assert steps[0..] == steps;
      for i := 0 to |steps|
        invariant Valid() && trace == old(trace) + steps[..i]
      {
        ExecSnoc(START, trace, steps[i]);
        hide Apply;
        var next := Apply(State(tasks.rows, runners, tasks.clock), steps[i]);
        tasks.rows, runners, tasks.clock := next.table, next.runners, next.clock;
        trace := trace + [steps[i]];
        assert steps[..i + 1] == steps[..i] + [steps[i]];
      }
      assert steps[..|steps|] == steps;
      ExecAppend(START, old(trace), steps);
      hide Apply, Exec;
      if Elsewhere(steps, id) {
        OthersAreLocal(old(Now()), steps, id);
      }
      if old(Has(id)) && !old(runners)[id].phase.Created? && NotJob(steps, id) {
        PhaseStays(old(Now()), steps, id);
      }
      if old(Has(id)) && old(runners)[id].owing && NotEnqueuer(steps, id) {
        OwingStays(old(Now()), steps, id);
      }
    }

    /** The same beside a job that goes on where it is. */
    method Beside(steps: seq<Step>, ghost id: nat)
      requires Valid() && Has(id) && !runners[id].phase.Created? && NotJob(steps, id)
      modifies this, tasks
      ensures Valid() && trace == old(trace) + steps
      ensures Has(id) && runners[id].phase == old(runners[id].phase)
      ensures Elsewhere(steps, id) ==> tasks.rows[id] == old(tasks.rows[id])
    {
      hide *;
      Others(steps, id);
      HasIs(id);
    }

    lemma HasIs(id: nat)
      ensures Has(id) <==> id in tasks.rows && id in runners
    {}

    method CreateTask(id: nat, user: string, key: string, total: int, fate: Fate) returns (stored: Stored)
      requires Valid() && id !in tasks.rows
      modifies this, tasks
      ensures Valid() && trace == old(trace) + [Create(id, user, key, total, fate)]
      ensures stored == Down <==> fate != Answered
      ensures stored == Stored <==>
        fate == Answered && forall j :: !IsActiveWork(old(tasks.rows), j, user, key)
      ensures stored == Stored ==> Has(id) && runners[id] == Runner(Created, false, {})
      ensures stored == Stored ==> IsNew(tasks.rows[id], user, key, total, old(tasks.clock))
    {
      ValidIsReachable();
      KeysAgree(Now(), id);
      ExecSnoc(START, trace, Create(id, user, key, total, fate));
      InvIndex(Now());
      CreateAllowed(tasks.rows, id, user, key, total, tasks.clock);
      hide Exec, Inv, CreateIn, Reachable, IsActiveWork, IsNew, IndexHolds;
      ghost var created := CreateIn(tasks.rows, id, user, key, total, tasks.clock).Some?;
      if created {
        CreatedRow(tasks.rows, id, user, key, total, tasks.clock);
      }
      stored := tasks.Create(id, user, key, total, fate);
      if stored == Stored {
        runners := runners[id := Runner(Created, false, {})];
      } else if id in tasks.rows {
        runners := runners[id := Runner(Over, false, {CreateUnheard})];
      }
      trace := trace + [Create(id, user, key, total, fate)];
    }

    method InsertJob(id: nat, budget: nat, fate: Fate) returns (ok: bool)
      requires Valid() && Has(id) && runners[id].phase.Created? && budget > 0
      modifies this, tasks
      ensures Valid() && trace == old(trace) + [Insert(id, budget, fate)] && ok == (fate == Answered)
      ensures Has(id) && runners[id].phase == if fate == Lost then Over else Waiting(budget)
      ensures !ok ==> runners[id].owing
      ensures tasks.rows == old(tasks.rows)
    {
      ExecSnoc(START, trace, Insert(id, budget, fate));
      hide Exec;
      var r := runners[id];
      runners := runners[id := match fate
        case Answered => r.(phase := Waiting(budget))
        case Lost => r.(phase := Over, owing := true)
        case Unheard => Runner(Waiting(budget), true, r.faults + {InsertUnheard})];
      tasks.clock := tasks.clock + 1;
      trace := trace + [Insert(id, budget, fate)];
      ok := fate == Answered;
    }

    method SettleTask(id: nat, up: bool)
      requires Valid() && Has(id) && runners[id].owing
      modifies this, tasks
      ensures Valid() && trace == old(trace) + [Settle(id, LOST, up)]
    {
      ValidIsReachable();
      ExecSnoc(START, trace, Settle(id, LOST, up));
      hide Exec, IndexHolds, Reachable, Fits;
      var settled := tasks.Finish(id, Broke(LOST), up);
      var r := runners[id];
      runners := runners[id := r.(owing := false, faults := if up then r.faults else r.faults + {SettleLost})];
      trace := trace + [Settle(id, LOST, up)];
    }

    method MarkTask(id: nat, fate: Fate) returns (ok: bool)
      requires Valid() && Has(id) && runners[id].phase.Picked?
      modifies this, tasks
      ensures Valid() && trace == old(trace) + [Mark(id, fate)]
      ensures ok <==> fate == Answered && MarkRunningIn(old(tasks.rows), id, old(tasks.clock)).Some?
      ensures ok ==> Has(id) && runners[id].phase.Operating?
      ensures ok ==> tasks.rows[id] == Marked(old(tasks.rows)[id], old(tasks.clock))
    {
      ExecSnoc(START, trace, Mark(id, fate));
      hide Exec, IndexHolds, Marked;
      var r, left := runners[id], runners[id].phase.left;
      ok := tasks.MarkRunning(id, fate);
      runners := runners[id :=
        if ok then r.(phase := Operating(left))
        else match fate
          case Answered => r.(phase := GiveBack(left))
          case Lost => r.(phase := GiveBack(left), faults := r.faults + {MarkLost})
          case Unheard => r.(phase := GiveBack(left), faults := r.faults + {MarkUnheard})];
      trace := trace + [Mark(id, fate)];
    }

    method ReportTask(id: nat, p: Progress, up: bool)
      requires Valid() && Has(id) && runners[id].phase.Operating?
      modifies this, tasks
      ensures Valid() && trace == old(trace) + [Report(id, p, up)]
      ensures Has(id) && runners == old(runners)
      ensures tasks.rows[id] == if up then Reported(old(tasks.rows)[id], p) else old(tasks.rows)[id]
    {
      ValidIsReachable();
      ExecSnoc(START, trace, Report(id, p, up));
      hide Exec, IndexHolds, Reachable, Fits, Reported;
      var told := tasks.ReportProgress(id, p, up);
      trace := trace + [Report(id, p, up)];
    }

    method EndTask(id: nat, o: Outcome)
      requires Valid() && Has(id) && runners[id].phase.Operating?
      modifies this, tasks
      ensures Valid() && trace == old(trace) + [End(id, o)]
      ensures Has(id) && runners[id].phase == Finishing(old(runners[id].phase.left), o)
      ensures tasks.rows == old(tasks.rows)
    {
      ExecSnoc(START, trace, End(id, o));
      hide Exec;
      runners := runners[id := runners[id].(phase := Finishing(runners[id].phase.left, o))];
      tasks.clock := tasks.clock + 1;
      trace := trace + [End(id, o)];
    }

    method FinishTask(id: nat, up: bool)
      requires Valid() && Has(id) && runners[id].phase.Finishing?
      modifies this, tasks
      ensures Valid() && trace == old(trace) + [Finish(id, up)]
      ensures Has(id) && runners[id].phase == Returning(old(runners[id].phase.left), old(runners[id].phase.outcome))
      ensures tasks.rows[id] ==
        if up then Finished(old(tasks.rows)[id], old(runners[id].phase.outcome), old(tasks.clock))
        else old(tasks.rows)[id]
    {
      ValidIsReachable();
      ExecSnoc(START, trace, Finish(id, up));
      hide Exec, IndexHolds, Reachable, Fits, Finished;
      var r, phase := runners[id], runners[id].phase;
      var ok := tasks.Finish(id, phase.outcome, up);
      runners := runners[id := r.(phase := Returning(phase.left, phase.outcome),
        faults := if up then r.faults else r.faults + {FinishLost})];
      trace := trace + [Finish(id, up)];
    }

    /** What a request comes to: the steps it took and what it answers. */
    twostate predicate Requested(user: string, key: string, total: int, id: nat, budget: nat, w: EnqueueWeather,
        r: Answer)
      reads this, tasks
    {
      var created := w.create == Answered && forall j :: !IsActiveWork(old(tasks.rows), j, user, key);
      && trace == old(trace) + EnqueueSteps(user, key, total, id, budget, w, created)
      && (r == Accepted(id) <==> created && w.insert == Answered)
      && (r == Refused <==> w.create != Answered || (if created then w.insert != Answered else !w.findUp))
      && (r.Accepted? ==>
          && r.id == id && Has(id) && runners[id].phase == Waiting(budget)
          && IsNew(tasks.rows[id], user, key, total, old(tasks.clock)))
      && (r.Existing? ==> IsActiveWork(tasks.rows, r.id, user, key))
      && (r.NoneFound? ==> forall j :: !IsActiveWork(tasks.rows, j, user, key))
    }

    /** Create the row, then insert its job, or settle the row when that seems to have failed. */
    method Enqueue(user: string, key: string, total: int, id: nat, budget: nat, w: EnqueueWeather)
      returns (r: Answer)
      requires Valid() && id !in tasks.rows && budget > 0 && Elsewhere(w.gap, id) && NotEnqueuer(w.gap', id)
      modifies this, tasks
      ensures Valid() && Requested(user, key, total, id, budget, w, r)
    {
      hide CreateIn, Inv, Exec, Elsewhere, NotEnqueuer, NotJob, IsActiveWork, IsNew;
      var stored := CreateTask(id, user, key, total, w.create);
      Others(w.gap, id);
      if stored == AlreadyRunning {
        var found := tasks.FindActiveByDedupKey(user, key, w.findUp);
        match found
        case Holder(holder) => return Existing(holder);
        case NoHolder => return NoneFound;
        case LookupFailed => return Refused;
      }
      if stored == Down {
        return Refused;
      }
      var queued := InsertJob(id, budget, w.insert);
      if !queued {
        Others(w.gap', id);
        SettleTask(id, w.settleUp);
        return Refused;
      }
      r := Accepted(id);
    }

    method EnqueueRefresh(subject: string, id: nat, budget: nat, w: EnqueueWeather) returns (r: Answer)
      requires Valid() && id !in tasks.rows && budget > 0 && Elsewhere(w.gap, id) && NotEnqueuer(w.gap', id)
      modifies this, tasks
      ensures Valid() && Requested(subject, REFRESH, 0, id, budget, w, r)
      ensures w.create == Answered && w.insert == Answered && NotRefreshing(old(tasks.rows), subject) ==>
        r == Accepted(id)
    {
      if NotRefreshing(tasks.rows, subject) {
        NoRefresh(tasks.rows, subject);
      }
      hide IsActiveWork, Exec, EnqueueSteps, NotRefreshing;
      r := Enqueue(subject, REFRESH, 0, id, budget, w);
    }

    method EnqueueRevoke(subject: string, keyId: string, id: nat, budget: nat, w: EnqueueWeather)
      returns (r: Answer)
      requires Valid() && id !in tasks.rows && budget > 0 && Elsewhere(w.gap, id) && NotEnqueuer(w.gap', id)
      modifies this, tasks
      ensures Valid() && Requested(subject, RevokeKey(keyId), REVOKE_STEPS, id, budget, w, r)
      ensures w.create == Answered && w.insert == Answered && NotRevoking(old(tasks.rows), subject, keyId) ==>
        r == Accepted(id)
    {
      if NotRevoking(tasks.rows, subject, keyId) {
        OtherWork(tasks.rows, subject, keyId);
      }
      hide IsActiveWork, Exec, EnqueueSteps, RevokeKey, NotRevoking;
      r := Enqueue(subject, RevokeKey(keyId), REVOKE_STEPS, id, budget, w);
    }

    /** One attempt, from the worker picking the job up to what it returns to River. */
    method Run(id: nat, op: Operation, w: RunWeather) returns (err: bool)
      requires Valid() && Has(id) && runners[id].phase.Picked? && Clear(w, id)
      modifies this, tasks
      ensures Valid()
      ensures var marked := w.mark == Answered && MarkRunningIn(old(tasks.rows), id, old(tasks.clock)).Some?;
        && trace == old(trace) + AttemptSteps(id, op, w, marked)
        && err == (!marked || op.end.Error?)
        && (marked ==>
            && Has(id) && runners[id].phase.Returning? && runners[id].phase.outcome == OutcomeOf(op.end)
            && (Alone(w, id) ==>
                && Leaves(Marked(old(tasks.rows)[id], old(tasks.clock)), op, w, tasks.rows[id])
                && Ran(old(tasks.rows)[id], op, w, old(tasks.clock), tasks.rows[id])))
    {
      RanIs(tasks.rows[id], op, w, tasks.clock);
      AttemptIs(id, op, w);
      hide *;
      var marked := MarkTask(id, w.mark);
      if marked {
        Operate(id, op, w);
      }
      err := !marked || op.end.Error?;
    }

    /** The operation and what is recorded of it. */
    method Operate(id: nat, op: Operation, w: RunWeather)
      requires Valid() && Has(id) && runners[id].phase.Operating? && Clear(w, id)
      modifies this, tasks
      ensures Valid() && trace == old(trace) + OperateSteps(id, op, w)
      ensures Has(id) && runners[id].phase.Returning? && runners[id].phase.outcome == OutcomeOf(op.end)
      ensures Alone(w, id) ==> Leaves(old(tasks.rows[id]), op, w, tasks.rows[id])
    {
      ClearIs(w, id);
      OperateIs(id, op, w);
      hide *;
      Beside(w.first, id);
      ReportAll(id, op.reports, w);
      EndAndFinish(id, OutcomeOf(op.end), w);
      LeavesIs(old(tasks.rows[id]), op, w, tasks.rows[id]);
    }

    /** The operation returns, and its outcome is recorded. */
    method EndAndFinish(id: nat, o: Outcome, w: RunWeather)
      requires Valid() && Has(id) && runners[id].phase.Operating? && Clear(w, id)
      modifies this, tasks
      ensures Valid() && trace == old(trace) + ([End(id, o)] + w.last + [Finish(id, w.finishUp)])
      ensures Has(id) && runners[id].phase.Returning? && runners[id].phase.outcome == o
      ensures Alone(w, id) ==> Settled(old(tasks.rows[id]), o, w.finishUp, tasks.rows[id])
    {
      ClearIs(w, id);
      hide *;
      EndTask(id, o);
      Beside(w.last, id);
      SettledWhat(tasks.rows[id], o, w.finishUp, tasks.clock);
      FinishTask(id, w.finishUp);
    }

    /** What the operation reports as it goes; a report that is lost is only logged. */
    method ReportAll(id: nat, ps: seq<Progress>, w: RunWeather)
      requires Valid() && Has(id) && runners[id].phase.Operating? && Clear(w, id)
      modifies this, tasks
      ensures Valid() && Has(id) && runners[id].phase == old(runners[id].phase)
      ensures trace == old(trace) + ReportSteps(id, ps, w)
      ensures Alone(w, id) ==> tasks.rows[id] == Shown(old(tasks.rows[id]), ps, w.reportUp)
    {
      ClearIs(w, id);
      NoReports(id, tasks.rows[id], w);
      assert ps[..0] == [];
      hide *;
      for i := 0 to |ps|
        invariant Valid() && Has(id) && runners[id].phase == old(runners[id].phase)
        invariant trace == old(trace) + ReportSteps(id, ps[..i], w)
        invariant Alone(w, id) ==> tasks.rows[id] == Shown(old(tasks.rows[id]), ps[..i], w.reportUp)
      {
        ReportsAre(id, old(tasks.rows[id]), ps, w, i);
        ReportTask(id, ps[i], w.reportUp(i));
        Beside(w.gap(i), id);
      }
      assert ps[..|ps|] == ps;
    }
  }

  /** All the user has under way is refreshes and revocations of other keys. */
  ghost predicate NotRevoking(table: Table, user: string, keyId: string) {
    forall j :: j in table && Active(table[j]) && table[j].user == user ==>
      table[j].dedupKey == REFRESH || exists other :: other != keyId && table[j].dedupKey == RevokeKey(other)
  }

  /** All the user has under way is revocations. */
  ghost predicate NotRefreshing(table: Table, user: string) {
    forall j :: j in table && Active(table[j]) && table[j].user == user ==>
      exists keyId :: table[j].dedupKey == RevokeKey(keyId)
  }

  lemma NoRefresh(table: Table, user: string)
    requires NotRefreshing(table, user)
    ensures forall j :: !IsActiveWork(table, j, user, REFRESH)
  {
    forall j | j in table && Active(table[j]) && table[j].user == user
      ensures table[j].dedupKey != REFRESH
    {
      var keyId :| table[j].dedupKey == RevokeKey(keyId);
      RevokeKeys(keyId, keyId);
    }
    hide RevokeKey;
  }

  lemma OtherWork(table: Table, user: string, keyId: string)
    requires NotRevoking(table, user, keyId)
    ensures forall j :: !IsActiveWork(table, j, user, RevokeKey(keyId))
  {
    forall j | j in table && Active(table[j]) && table[j].user == user
      ensures table[j].dedupKey != RevokeKey(keyId)
    {
      RevokeKeys(keyId, keyId);
      if table[j].dedupKey != REFRESH {
        var other :| other != keyId && table[j].dedupKey == RevokeKey(other);
        RevokeKeys(other, keyId);
      }
    }
    hide RevokeKey;
  }

  lemma ClearIs(w: RunWeather, id: nat)
    requires Clear(w, id)
    ensures NotJob(w.first, id) && NotJob(w.last, id) && forall i :: NotJob(w.gap(i), id)
    ensures Alone(w, id) ==> Elsewhere(w.first, id) && Elsewhere(w.last, id) && forall i :: Elsewhere(w.gap(i), id)
  {
    hide NotJob, Elsewhere;
  }

  lemma AttemptIs(id: nat, op: Operation, w: RunWeather)
    ensures AttemptSteps(id, op, w, false) == [Mark(id, w.mark)]
    ensures AttemptSteps(id, op, w, true) == [Mark(id, w.mark)] + OperateSteps(id, op, w)
  {
    hide OperateSteps;
  }

  lemma OperateIs(id: nat, op: Operation, w: RunWeather)
    ensures OperateSteps(id, op, w) ==
      w.first + ReportSteps(id, op.reports, w) + ([End(id, OutcomeOf(op.end))] + w.last + [Finish(id, w.finishUp)])
  {}

  lemma ReportsAre(id: nat, t: Task, ps: seq<Progress>, w: RunWeather, i: nat)
    requires i < |ps|
    ensures ReportSteps(id, ps[..i + 1], w) ==
      ReportSteps(id, ps[..i], w) + [Report(id, ps[i], w.reportUp(i))] + w.gap(i)
    ensures Shown(t, ps[..i + 1], w.reportUp) ==
      if w.reportUp(i) then Reported(Shown(t, ps[..i], w.reportUp), ps[i]) else Shown(t, ps[..i], w.reportUp)
  {
    hide Reported;
    assert ps[..i + 1][..i] == ps[..i];
  }

  lemma NoReports(id: nat, t: Task, w: RunWeather)
    ensures ReportSteps(id, [], w) == [] && Shown(t, [], w.reportUp) == t
  {}

  lemma SettledWhat(t: Task, o: Outcome, up: bool, now: nat)
    ensures Settled(t, o, up, if up then Finished(t, o, now) else t)
  {}

  lemma LeavesIs(t: Task, op: Operation, w: RunWeather, t': Task)
    ensures Leaves(t, op, w, t') <==> Settled(Shown(t, op.reports, w.reportUp), OutcomeOf(op.end), w.finishUp, t')
  {}

  lemma InvIndex(s: State)
    requires Inv(s)
    ensures IndexHolds(s.table)
  {}

  lemma CreatedRow(table: Table, id: nat, user: string, key: string, total: int, now: nat)
    requires CreateIn(table, id, user, key, total, now).Some?
    ensures id in CreateIn(table, id, user, key, total, now).value
  {}

  /** A refresh or a revocation that succeeds, its last report and its end recorded, shows its
      progress complete; the attempt's reports began again at nothing, and the start time is
      the first attempt's. */
  lemma CompleteAtTheEnd(t: Task, now: nat, op: Operation, w: RunWeather, t': Task, names: seq<string>,
      provider: string)
    requires op.reports == RefreshReports(names) || op.reports == RevokeReports(provider)
    requires op.reports != [] && op.end.Result? && w.finishUp && w.reportUp(|op.reports| - 1)
    requires Leaves(Marked(t, now), op, w, t')
    ensures t'.status == Succeeded && t'.progress == t'.total
    ensures t'.total == if op.reports == RefreshReports(names) then |names| else REVOKE_STEPS
    ensures op.reports[0].done == 0
    ensures t.startedAt.Some? ==> t'.startedAt == t.startedAt
  {
    ReportsClimb(names, provider);
    ShownIs(Marked(t, now), op.reports, w.reportUp);
    hide Shown, RefreshReports, RevokeReports;
    var last := |op.reports| - 1;
    assert w.reportUp(last);
  }
}

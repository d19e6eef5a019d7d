/** Runs that show what the task protocol does not promise. */
module Traces {
  import opened Text
  import opened Tasks
  import opened Protocol
  import opened Runs
  import opened Orphans

  lemma Then(s: State, st: Step)
    requires Reachable(s)
    ensures Reachable(Apply(s, st))
  {
    hide Apply;
    var steps :| Exec(START, steps) == s;
    ExecAppend(START, steps, [st]);
    assert Exec(s, [st]) == Exec(Apply(s, st), [st][1..]);
    assert Exec(START, steps + [st]) == Apply(s, st);
  }

  lemma Begin()
    ensures Reachable(START)
  {
    assert Exec(START, []) == START;
  }

  /** A task queued for the first time. */
  lemma Queued(s: State, id: nat, user: string, key: string, budget: nat) returns (s': State)
    requires Reachable(s) && id !in s.table && budget > 0
    requires CreateIn(s.table, id, user, key, 0, s.clock).Some?
    ensures Reachable(s')
    ensures s' == State(s.table[id := NewTask(user, key, 0, s.clock)],
      s.runners[id := Runner(Waiting(budget), false, {})], s.clock + 2)
  {
    ReachableInv(s);
    KeysAgree(s, id);
    var m := Apply(s, Create(id, user, key, 0, Answered));
    Then(s, Create(id, user, key, 0, Answered));
    s' := Apply(m, Insert(id, budget, Answered));
    Then(m, Insert(id, budget, Answered));
    hide IndexHolds, Inv, Reachable;
    assert s'.runners == s.runners[id := Runner(Waiting(budget), false, {})];
  }

  /** An attempt picked up and marked running. */
  lemma Started(s: State, id: nat) returns (s': State)
    requires Reachable(s) && id in s.table && id in s.runners
    requires s.runners[id].phase.Waiting? && s.runners[id].phase.left > 0
    requires MarkRunningIn(s.table, id, s.clock + 1).Some?
    ensures Reachable(s')
    ensures s' == State(s.table[id := Marked(s.table[id], s.clock + 1)],
      s.runners[id := s.runners[id].(phase := Operating(s.runners[id].phase.left - 1))], s.clock + 2)
  {
    var m := Apply(s, Pick(id));
    Then(s, Pick(id));
    s' := Apply(m, Mark(id, Answered));
    Then(m, Mark(id, Answered));
    hide IndexHolds, Reachable, Marked;
    assert s'.runners == s.runners[id := s.runners[id].(phase := Operating(s.runners[id].phase.left - 1))];
  }

  /** An operation that ends, with its end recorded or lost. */
  lemma Ended(s: State, id: nat, o: Outcome, up: bool) returns (s': State)
    requires Reachable(s) && id in s.table && Executing(s, id)
    ensures Reachable(s')
    ensures var r, left := s.runners[id], s.runners[id].phase.left;
      s' == State(
        if up then s.table[id := Finished(s.table[id], o, s.clock + 1)] else s.table,
        s.runners[id := Runner(Returning(left, o), r.owing, if up then r.faults else r.faults + {FinishLost})],
        s.clock + 2)
  {
    ReachableInv(s);
    SettlingGoesThrough(s.table, id, Progress(0, 0, ""), o, s.clock + 1);
    var m := Apply(s, End(id, o));
    Then(s, End(id, o));
    s' := Apply(m, Step.Finish(id, up));
    Then(m, Step.Finish(id, up));
    EndedAt(s, id, o);
    FinishedAt(m, id, up);
    hide Apply, Reachable, Finished, Inv, FinishIn;
    var left := s.runners[id].phase.left;
    assert s'.runners == s.runners[id :=
      Runner(Returning(left, o), s.runners[id].owing,
        if up then s.runners[id].faults else s.runners[id].faults + {FinishLost})];
  }

  lemma EndedAt(s: State, id: nat, o: Outcome)
    requires id in s.table && Executing(s, id)
    ensures Apply(s, End(id, o)) == State(s.table,
      s.runners[id := s.runners[id].(phase := Finishing(s.runners[id].phase.left, o))], s.clock + 1)
  {}

  lemma FinishedAt(s: State, id: nat, up: bool)
    requires id in s.table && id in s.runners && s.runners[id].phase.Finishing?
    requires FinishIn(s.table, id, s.runners[id].phase.outcome, s.clock).Some?
    ensures var r, phase := s.runners[id], s.runners[id].phase;
      Apply(s, Step.Finish(id, up)) == State(
        if up then s.table[id := Finished(s.table[id], phase.outcome, s.clock)] else s.table,
        s.runners[id := Runner(Returning(phase.left, phase.outcome), r.owing,
          if up then r.faults else r.faults + {FinishLost})],
        s.clock + 1)
  {
    hide IndexHolds, Finished;
  }

  lemma Returned(s: State, id: nat) returns (s': State)
    requires Reachable(s) && id in s.table && id in s.runners && s.runners[id].phase.Returning?
    ensures Reachable(s')
    ensures var phase := s.runners[id].phase;
      s' == s.(clock := s.clock + 1, runners := s.runners[id :=
        s.runners[id].(phase := if phase.outcome.Done? then Over else GiveBack(phase.left))])
  {
    s' := Apply(s, Return(id));
    Then(s, Return(id));
    hide Reachable;
  }

  /** A failed attempt. */
  lemma FailedOnce(s: State, id: nat) returns (s': State)
    requires Reachable(s) && id in s.table && id in s.runners
    requires s.runners[id].phase.Waiting? && s.runners[id].phase.left > 1
    requires MarkRunningIn(s.table, id, s.clock + 1).Some?
    ensures Reachable(s')
    ensures s' == State(
      s.table[id := Finished(Marked(s.table[id], s.clock + 1), Broke("x"), s.clock + 3)],
      s.runners[id := s.runners[id].(phase := Waiting(s.runners[id].phase.left - 1))], s.clock + 5)
  {
    hide Reachable, IndexHolds, MarkRunningIn, Marked, Finished;
    var a := Started(s, id);
    var b := Ended(a, id, Broke("x"), true);
    s' := Returned(b, id);
    assert s'.runners == s.runners[id := s.runners[id].(phase := Waiting(s.runners[id].phase.left - 1))];
    assert s'.table == s.table[id := Finished(Marked(s.table[id], s.clock + 1), Broke("x"), s.clock + 3)];
  }

  /** Failed is not final: a retry moves the task back to running, still carrying the error
      and the finish time of the attempt before, and with the first start time. */
  lemma FailedIsNotFinal() returns (s: State, s': State)
    ensures Reachable(s) && Reachable(s')
    ensures 1 in s.table && 1 in s'.table && s.table[1].status == Failed && s'.table[1].status == Running
    ensures s'.table[1].error.Some? && s'.table[1].finishedAt.Some?
    ensures s.table[1].startedAt == s'.table[1].startedAt == Some(3)
  {
    Begin();
    s := Queued(START, 1, "u", "refresh_keys", 2);
    s := FailedOnce(s, 1);
    s' := Started(s, 1);
  }

  predicate Retrying(s: State, id: nat) {
    && id in s.table && id in s.runners && s.table[id].status == Failed
    && s.table[id].user == "u" && s.table[id].dedupKey == "refresh_keys"
    && s.runners[id].phase == Waiting(2)
  }

  /** Two tasks for the same work, the second asked for once the first had failed. */
  lemma FirstFails() returns (s: State)
    ensures Reachable(s) && Retrying(s, 1) && s.table.Keys == {1} && s.table[1].createdAt < s.clock
  {
    Begin();
    s := Queued(START, 1, "u", "refresh_keys", 3);
    s := FailedOnce(s, 1);
  }

  lemma OnlyWork(s: State, id: nat, t: Task)
    requires forall j :: j in s.table && j != id ==> !Active(s.table[j])
    ensures IndexHolds(s.table[id := t])
  {}

  lemma BothFailed() returns (s: State)
    ensures Reachable(s) && Retrying(s, 1) && Retrying(s, 2) && s.table.Keys == {1, 2}
    ensures s.table[1].createdAt < s.table[2].createdAt
  {
    s := FirstFails();
    ghost var first := s.table[1];
    OnlyWork(s, 2, NewTask("u", "refresh_keys", 0, s.clock));
    hide Reachable, IndexHolds;
    s := Queued(s, 2, "u", "refresh_keys", 3);
    OnlyWork(s, 2, Marked(s.table[2], s.clock + 1));
    s := FailedOnce(s, 2);
    assert s.table[1] == first;
  }

  /** The task doing the work when a retry is turned away can be the older one: both failed
      once, the older was retried first. */
  lemma TurnedAwayByOlder() returns (s: State)
    ensures Reachable(s) && 1 in s.table && 2 in s.table && Enabled(s, Mark(2, Answered)) && TurnedAway(s, 2)
    ensures forall j :: j in s.table && j != 2 && Active(s.table[j]) && SameWork(s.table[j], s.table[2]) ==>
      s.table[j].createdAt < s.table[2].createdAt
  {
    var a := BothFailed();
    OnlyWork(a, 1, Marked(a.table[1], a.clock + 1));
    hide Reachable, IndexHolds, TurnedAway;
    var b := Started(a, 1);
    s := Apply(b, Pick(2));
    Then(b, Pick(2));
    RefusalAt(s);
  }

  lemma RefusalAt(s: State)
    requires Reachable(s) && 1 in s.table && 2 in s.table && Active(s.table[1]) && !Active(s.table[2])
    requires SameWork(s.table[1], s.table[2]) && Enabled(s, Mark(2, Answered))
    ensures TurnedAway(s, 2)
  {
    RefusalExactly(s, 2);
  }

  /** A request that loses to a running task and then looks for the winner can find none: it
      may settle between the two statements. */
  lemma WinnerCanBeGone() returns (s: State, s': State)
    ensures Reachable(s) && Reachable(s')
    ensures CreateIn(s.table, 2, "u", "refresh_keys", 0, s.clock).None?
    ensures exists steps :: Exec(s, steps) == s'
    ensures forall j :: !IsActiveWork(s'.table, j, "u", "refresh_keys")
  {
    s := FirstRuns();
    ReachableInv(s);
    hide IndexHolds, Inv, Reachable;
    assert IsActiveWork(s.table, 1, "u", "refresh_keys");
    CreateRefused(s.table, 2, "u", "refresh_keys", 0, s.clock);
    s' := EndsWell(s);
  }

  lemma FirstRuns() returns (s: State)
    ensures Reachable(s) && s.table.Keys == {1} && Executing(s, 1)
    ensures IsActiveWork(s.table, 1, "u", "refresh_keys")
  {
    Begin();
    s := Queued(START, 1, "u", "refresh_keys", 1);
    s := Started(s, 1);
  }

  lemma EndsWell(s: State) returns (s': State)
    requires Reachable(s) && s.table.Keys == {1} && Executing(s, 1)
    ensures Reachable(s') && s'.table.Keys == {1} && !Active(s'.table[1])
    ensures exists steps :: Exec(s, steps) == s'
  {
    ReachableInv(s);
    var first, second := End(1, Done(None)), Step.Finish(1, true);
    var m := Apply(s, first);
    SettlingGoesThrough(s.table, 1, Progress(0, 0, ""), Done(None), m.clock);
    s' := Apply(m, second);
    Then(s, first);
    Then(m, second);
    TwoSteps(s, first, second);
    hide IndexHolds, Inv, Reachable;
  }

  lemma TwoSteps(s: State, a: Step, b: Step)
    ensures exists steps :: Exec(s, steps) == Apply(Apply(s, a), b)
  {
    hide Apply;
    assert [a, b][1..] == [b] && [b][1..] == [];
    assert Exec(s, [a, b]) == Exec(Apply(s, a), [b]);
    assert Exec(Apply(s, a), [b]) == Exec(Apply(Apply(s, a), b), []);
  }

  /** A worker that dies after recording success has its job, and so its task, run again. */
  lemma SucceededCanRunAgain() returns (s: State, s': State)
    ensures Reachable(s) && Reachable(s') && 1 in s.table && 1 in s'.table
    ensures s.table[1].status == Succeeded && s'.table[1].status == Running
  {
    Begin();
    var a := Queued(START, 1, "u", "refresh_keys", 2);
    var b := Started(a, 1);
    s := Ended(b, 1, Done(None), true);
    var c := Apply(s, WorkerDies(1));
    Then(s, WorkerDies(1));
    assert c.runners[1].phase == Waiting(1);
    s' := Started(c, 1);
  }

  /** One lost Finish after a success is enough to orphan a task, attempts left or not. */
  lemma LostFinishOrphans() returns (s: State)
    ensures Reachable(s) && Orphan(s, 1) && OnlyFaults(s, {FinishLost})
  {
    Begin();
    var a := Queued(START, 1, "u", "refresh_keys", 5);
    var b := Started(a, 1);
    var c := Ended(b, 1, Done(None), false);
    s := Returned(c, 1);
  }

  /** An Insert whose reply is lost: the job runs, and its enqueuer settles the row under it. */
  lemma SettledWhileRunning() returns (s: State)
    ensures Reachable(s) && s.table.Keys == {1} && s.runners.Keys == {1} && SettledUnder(s, 1)
    ensures s.table[1].user == "u" && s.table[1].dedupKey == "refresh_keys"
  {
    Begin();
    var a := Apply(START, Create(1, "u", "refresh_keys", 0, Answered));
    Then(START, Create(1, "u", "refresh_keys", 0, Answered));
    var b := Apply(a, Insert(1, 1, Unheard));
    Then(a, Insert(1, 1, Unheard));
    var c := Started(b, 1);
    SettlingGoesThrough(c.table, 1, Progress(0, 0, ""), Broke("x"), c.clock);
    s := Apply(c, Settle(1, "x", true));
    Then(c, Settle(1, "x", true));
  }

  /** Then a new request for the same work is accepted, and two operations execute at once. */
  lemma TwoAtOnce() returns (s: State)
    ensures Reachable(s) && Executing(s, 1) && Executing(s, 2) && SameWork(s.table[1], s.table[2])
  {
    var a := SettledWhileRunning();
    OnlyWork(a, 2, NewTask("u", "refresh_keys", 0, a.clock));
    hide Reachable, IndexHolds;
    var b := Queued(a, 2, "u", "refresh_keys", 1);
    OnlyWork(b, 2, Marked(b.table[2], b.clock + 1));
    s := Started(b, 2);
  }
}

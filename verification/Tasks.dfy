/** The tasks table: its rows, the partial unique index over the active ones, and the
    statements that change it. */
module Tasks {
  import opened Text

  datatype Status = Pending | Running | Succeeded | Failed

  /** Times are readings of a logical clock. */
  datatype Task = Task(
    user: string, dedupKey: string, status: Status, progress: int, total: int, message: Option<string>,
    result: Option<string>, error: Option<string>,
    createdAt: nat, startedAt: Option<nat>, finishedAt: Option<nat>)

  type Table = map<nat, Task>

  predicate Active(t: Task) {
    t.status == Pending || t.status == Running
  }

  /** The same work for the same user. */
  predicate SameWork(t: Task, u: Task) {
    t.user == u.user && t.dedupKey == u.dedupKey
  }

  /** idx_tasks_active_dedup */
  predicate IndexHolds(table: Table) {
    forall i, j :: i in table && j in table && i != j && Active(table[i]) && Active(table[j]) ==>
      !SameWork(table[i], table[j])
  }

  /** One statement's write, which the server refuses when it would break the index. */
  function Put(table: Table, id: nat, t: Task): Option<Table> {
    var next := table[id := t];
    if IndexHolds(next) then Some(next) else None
  }

  function NewTask(user: string, key: string, total: int, now: nat): Task {
    Task(user, key, Pending, 0, total, Some("Queued"), None, None, now, None, None)
  }

  function Marked(t: Task, now: nat): Task {
    t.(status := Running, startedAt := if t.startedAt.Some? then t.startedAt else Some(now))
  }

  datatype Progress = Progress(done: int, total: int, message: string)

  function Reported(t: Task, p: Progress): Task {
    t.(progress := p.done, total := p.total, message := if p.message == "" then None else Some(p.message))
  }

  /** How an operation ended: with its encoded result, if it has one, or with an error. */
  datatype Outcome = Done(result: Option<string>) | Broke(error: string)

  function Finished(t: Task, o: Outcome, now: nat): Task {
    match o
    case Done(result) => t.(status := Succeeded, result := result, error := None, finishedAt := Some(now))
    case Broke(error) => t.(status := Failed, result := None, error := Some(error), finishedAt := Some(now))
  }

  /** Each statement as a function of the table; None when the index refuses it. An UPDATE of
      a row that is not there changes nothing. */

  function CreateIn(table: Table, id: nat, user: string, key: string, total: int, now: nat): Option<Table> {
    if id in table then None else Put(table, id, NewTask(user, key, total, now))
  }

  function MarkRunningIn(table: Table, id: nat, now: nat): Option<Table> {
    if id in table then Put(table, id, Marked(table[id], now)) else Some(table)
  }

  function ReportIn(table: Table, id: nat, p: Progress): Option<Table> {
    if id in table then Put(table, id, Reported(table[id], p)) else Some(table)
  }

  function FinishIn(table: Table, id: nat, o: Outcome, now: nat): Option<Table> {
    if id in table then Put(table, id, Finished(table[id], o, now)) else Some(table)
  }

  /** Whether another row is already doing this work. */
  predicate Taken(table: Table, id: nat, t: Task) {
    exists j :: j in table && j != id && Active(table[j]) && SameWork(table[j], t)
  }

  /** What the index asks of one write. */
  lemma PutRefused(table: Table, id: nat, t: Task)
    requires IndexHolds(table)
    ensures Put(table, id, t).None? <==> Active(t) && Taken(table, id, t)
  {
    var next := table[id := t];
    if Active(t) && Taken(table, id, t) {
      var j :| j in table && j != id && Active(table[j]) && SameWork(table[j], t);
      assert next[j] == table[j] && next[id] == t;
    }
    if Put(table, id, t).None? {
      var i, j :| i in next && j in next && i != j && Active(next[i]) && Active(next[j]) && SameWork(next[i], next[j]);
      assert i == id || j == id;
      var other := if i == id then j else i;
      assert other in table && next[other] == table[other];
    }
  }

  /** A new task is refused exactly when the same work is already active. */
  lemma CreateRefused(table: Table, id: nat, user: string, key: string, total: int, now: nat)
    requires IndexHolds(table) && id !in table
    ensures CreateIn(table, id, user, key, total, now).None? <==>
      exists j :: j in table && Active(table[j]) && table[j].user == user && table[j].dedupKey == key
  {
    var t := NewTask(user, key, total, now);
    PutRefused(table, id, t);
    if j :| j in table && Active(table[j]) && table[j].user == user && table[j].dedupKey == key {
      assert SameWork(table[j], t);
    }
  }

  /** Marking a task running is refused exactly when it is settled and another task is doing
      the same work; an active task is never refused. */
  lemma MarkRefused(table: Table, id: nat, now: nat)
    requires IndexHolds(table) && id in table
    ensures MarkRunningIn(table, id, now).None? <==> !Active(table[id]) && Taken(table, id, table[id])
  {
    PutRefused(table, id, Marked(table[id], now));
    if Taken(table, id, table[id]) {
      var j :| j in table && j != id && Active(table[j]) && SameWork(table[j], table[id]);
      assert SameWork(table[j], Marked(table[id], now));
    }
    if j :| j in table && j != id && Active(table[j]) && SameWork(table[j], Marked(table[id], now)) {
      assert SameWork(table[j], table[id]);
    }
  }

  /** Reporting and finishing are never refused. */
  lemma SettlingGoesThrough(table: Table, id: nat, p: Progress, o: Outcome, now: nat)
    requires IndexHolds(table)
    ensures ReportIn(table, id, p).Some? && FinishIn(table, id, o, now).Some?
  {
    if id in table {
      PutRefused(table, id, Reported(table[id], p));
      PutRefused(table, id, Finished(table[id], o, now));
      if j :| j in table && j != id && Active(table[j]) && SameWork(table[j], Reported(table[id], p)) {
        assert SameWork(table[j], table[id]);
      }
    }
  }

  predicate IsActiveWork(table: Table, id: nat, user: string, key: string) {
    id in table && Active(table[id]) && table[id].user == user && table[id].dedupKey == key
  }

  lemma CreateAllowed(table: Table, id: nat, user: string, key: string, total: int, now: nat)
    requires IndexHolds(table) && id !in table
    ensures CreateIn(table, id, user, key, total, now).Some? <==> forall j :: !IsActiveWork(table, j, user, key)
  {
    CreateRefused(table, id, user, key, total, now);
    hide CreateIn, IndexHolds;
    if CreateIn(table, id, user, key, total, now).None? {
      var j :| j in table && Active(table[j]) && table[j].user == user && table[j].dedupKey == key;
      assert IsActiveWork(table, j, user, key);
    }
  }

  /** What each statement leaves, field by field. */

  predicate IsNew(t: Task, user: string, key: string, total: int, now: nat) {
    && t.user == user && t.dedupKey == key && t.status == Pending && t.createdAt == now
    && t.progress == 0 && t.total == total && t.message == Some("Queued")
    && t.result.None? && t.error.None? && t.startedAt.None? && t.finishedAt.None?
  }

  /** Two rows that differ in no more than how the work is going. */
  predicate SameTask(t: Task, u: Task) {
    t.user == u.user && t.dedupKey == u.dedupKey && t.createdAt == u.createdAt
  }

  predicate SameProgress(t: Task, u: Task) {
    t.progress == u.progress && t.total == u.total && t.message == u.message
  }

  predicate SameEnd(t: Task, u: Task) {
    t.result == u.result && t.error == u.error && t.finishedAt == u.finishedAt
  }

  predicate IsMarked(t: Task, u: Task, now: nat) {
    && SameTask(t, u) && SameProgress(t, u) && SameEnd(t, u) && u.status == Running
    && u.startedAt == if t.startedAt.None? then Some(now) else t.startedAt
  }

  predicate IsReported(t: Task, u: Task, p: Progress) {
    && SameTask(t, u) && SameEnd(t, u) && u.status == t.status && u.startedAt == t.startedAt
    && u.progress == p.done && u.total == p.total
    && (if p.message == "" then u.message.None? else u.message == Some(p.message))
  }

  predicate IsFinished(t: Task, u: Task, o: Outcome, now: nat) {
    && SameTask(t, u) && SameProgress(t, u) && u.startedAt == t.startedAt && u.finishedAt == Some(now)
    && match o
       case Done(result) => u.status == Succeeded && u.result == result && u.error.None?
       case Broke(error) => u.status == Failed && u.result.None? && u.error == Some(error)
  }

  /** How a call fares: it is answered, it never arrives, or it takes effect and its reply is
      lost, which the caller cannot tell from the second. */
  datatype Fate = Answered | Lost | Unheard

  datatype Stored = Stored | AlreadyRunning | Down

  datatype Lookup = Holder(id: nat) | NoHolder | LookupFailed

  /** The repository. Where the reply makes no difference to the caller, up says whether the
      statement arrives. */
  class TaskTable {
    var rows: Table
    var clock: nat

    constructor ()
      ensures rows == map[] && clock == 0
    {
      rows, clock := map[], 0;
    }

    method Create(id: nat, user: string, key: string, total: int, fate: Fate) returns (r: Stored)
      requires id !in rows
      modifies this
      ensures clock == old(clock) + 1
      ensures r == Down <==> fate != Answered
      ensures var next := CreateIn(old(rows), id, user, key, total, old(clock));
        && (r == Stored <==> fate == Answered && next.Some?)
        && rows == if fate != Lost && next.Some? then next.value else old(rows)
      ensures rows == old(rows) || (id in rows && rows == old(rows)[id := rows[id]])
      ensures id in rows ==> IsNew(rows[id], user, key, total, old(clock))
      ensures IndexHolds(old(rows)) ==>
        (id in rows <==> fate != Lost && forall j :: !IsActiveWork(old(rows), j, user, key))
    {
      if IndexHolds(rows) {
        CreateAllowed(rows, id, user, key, total, clock);
      }
      var task := NewTask(user, key, total, clock);
      clock := clock + 1;
      if fate == Lost {
        return Down;
      }
      var free := IndexHolds(rows[id := task]);
      if free {
        rows := rows[id := task];
      }
      r := if fate == Unheard then Down else if free then Stored else AlreadyRunning;
    }

    method FindActiveByDedupKey(user: string, key: string, up: bool) returns (found: Lookup)
      ensures found.LookupFailed? <==> !up
      ensures found.Holder? ==> IsActiveWork(rows, found.id, user, key)
      ensures found.NoHolder? ==> forall j :: !IsActiveWork(rows, j, user, key)
    {
      if !up {
        return LookupFailed;
      }
      var left := rows.Keys;
      while left != {}
        invariant left <= rows.Keys
        invariant forall j :: j in rows.Keys - left ==> !IsActiveWork(rows, j, user, key)
        decreases |left|
      {
        var id :| id in left;
        if IsActiveWork(rows, id, user, key) {
          return Holder(id);
        }
        left := left - {id};
      }
      return NoHolder;
    }

    method MarkRunning(id: nat, fate: Fate) returns (ok: bool)
      modifies this
      ensures clock == old(clock) + 1
      ensures var next := MarkRunningIn(old(rows), id, old(clock));
        && (ok <==> fate == Answered && next.Some?)
        && rows == if fate != Lost && next.Some? then next.value else old(rows)
      ensures rows == old(rows) || (id in old(rows) && id in rows && rows == old(rows)[id := rows[id]])
      ensures ok && id in rows ==> IsMarked(old(rows)[id], rows[id], old(clock))
    {
      var next := MarkRunningIn(rows, id, clock);
      clock := clock + 1;
      if fate != Lost && next.Some? {
        rows := next.value;
      }
      ok := fate == Answered && next.Some?;
    }

    method ReportProgress(id: nat, p: Progress, up: bool) returns (ok: bool)
      requires IndexHolds(rows)
      modifies this
      ensures clock == old(clock) + 1 && ok == up
      ensures ReportIn(old(rows), id, p).Some?
      ensures rows == if up then ReportIn(old(rows), id, p).value else old(rows)
      ensures if !up || id !in old(rows) then rows == old(rows)
        else id in rows && rows == old(rows)[id := rows[id]] && IsReported(old(rows)[id], rows[id], p)
    {
      SettlingGoesThrough(rows, id, p, Done(None), clock);
      clock := clock + 1;
      if up && id in rows {
        rows := rows[id := Reported(rows[id], p)];
      }
      ok := up;
    }

    method Finish(id: nat, o: Outcome, up: bool) returns (ok: bool)
      requires IndexHolds(rows)
      modifies this
      ensures clock == old(clock) + 1 && ok == up
      ensures FinishIn(old(rows), id, o, old(clock)).Some?
      ensures rows == if up then FinishIn(old(rows), id, o, old(clock)).value else old(rows)
      ensures if !up || id !in old(rows) then rows == old(rows)
        else id in rows && rows == old(rows)[id := rows[id]] && IsFinished(old(rows)[id], rows[id], o, old(clock))
    {
      SettlingGoesThrough(rows, id, Progress(0, 0, ""), o, clock);
      if up && id in rows {
        rows := rows[id := Finished(rows[id], o, clock)];
      }
      clock := clock + 1;
      ok := up;
    }
  }
}

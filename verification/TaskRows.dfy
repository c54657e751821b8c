/**
The background_tasks table and the statements of app/repositories/tasks.py on it. None of the
`Mark*` updates and neither the clean-up delete checks the status of the row it changes.
*/
module TaskRows {
  import opened Common

  type TaskId = nat
  type Instant = int

  datatype Status = Pending | Running | Succeeded | Failed

  const DAY: Instant := 86400
  const TTL_SUCCEEDED: Instant := 7 * DAY
  const TTL_FAILED: Instant := 30 * DAY
  const EXECUTION_FAILED := "TASK_EXECUTION_FAILED"

  datatype Payload = Payload(clientId: nat, startDate: Option<Instant>, endDate: Option<Instant>, force: bool)

  datatype Task = Task(
    taskType: string, payload: Payload, status: Status,
    result: Option<string>, error: Option<string>,
    createdAt: Instant, updatedAt: Instant,
    completedAt: Option<Instant>, expiresAt: Option<Instant>)

  type Rows = map<TaskId, Task>

  predicate Terminal(task: Task) {
    task.status == Succeeded || task.status == Failed
  }

  predicate IsExpired(task: Task, now: Instant) {
    task.expiresAt.Some? && task.expiresAt.value < now && Terminal(task)
  }

  function PendingIds(rows: Rows): set<TaskId> {
    set id | id in rows && rows[id].status == Pending
  }

  function ExpiredIds(rows: Rows, now: Instant): set<TaskId> {
    set id | id in rows && IsExpired(rows[id], now)
  }

  function NewTask(taskType: string, payload: Payload, now: Instant): Task {
    Task(taskType, payload, Pending, None, None, now, now, None, None)
  }

  function Create(rows: Rows, id: TaskId, taskType: string, payload: Payload, now: Instant): Rows {
    rows[id := NewTask(taskType, payload, now)]
  }

  predicate Claimable(rows: Rows, id: TaskId) {
    id in rows && rows[id].status == Pending
  }

  function Claim(rows: Rows, id: TaskId, now: Instant): Rows {
    if Claimable(rows, id) then rows[id := rows[id].(status := Running, updatedAt := now)] else rows
  }

  function Succeed(rows: Rows, id: TaskId, result: string, now: Instant): Rows {
    if id in rows then
      rows[id := rows[id].(status := Succeeded, result := Some(result), updatedAt := now,
                           completedAt := Some(now), expiresAt := Some(now + TTL_SUCCEEDED))]
    else rows
  }

  function Fail(rows: Rows, id: TaskId, errorCode: string, now: Instant): Rows {
    if id in rows then
      rows[id := rows[id].(status := Failed, error := Some(errorCode), updatedAt := now,
                           completedAt := Some(now), expiresAt := Some(now + TTL_FAILED))]
    else rows
  }

  /** `DELETE ... WHERE id IN (ids)`; its row count is `Deleted`. */
  function DeleteIds(rows: Rows, ids: set<TaskId>): Rows {
    rows - ids
  }

  function Deleted(rows: Rows, ids: set<TaskId>): nat {
    |rows.Keys * ids|
  }

  /** A `SELECT ... LIMIT n` without ORDER BY may return any rows, but as many as there are. */
  ghost predicate Limited(chosen: set<TaskId>, matching: set<TaskId>, limit: nat) {
    chosen <= matching && |chosen| == Min(limit, |matching|)
  }

  /**
  The life cycle a row may be in: completion and expiry are set exactly on terminal rows, a result
  exactly on succeeded ones, an error exactly on failed ones.
  */
  ghost predicate WellFormed(task: Task, now: Instant) {
    match task.status
    case Pending => task.completedAt == None && task.expiresAt == None && task.result == None && task.error == None
    case Running => task.completedAt == None && task.expiresAt == None && task.result == None && task.error == None
    case Succeeded =>
      && task.completedAt.Some? && task.completedAt.value <= now
      && task.expiresAt == Some(task.completedAt.value + TTL_SUCCEEDED)
      && task.result.Some? && task.error == None
    case Failed =>
      && task.completedAt.Some? && task.completedAt.value <= now
      && task.expiresAt == Some(task.completedAt.value + TTL_FAILED)
      && task.result == None && task.error.Some?
  }

  /** Completed, and past its retention time: seven days if it succeeded, thirty if it failed. */
  ghost predicate Overdue(task: Task, now: Instant) {
    && WellFormed(task, now) && task.completedAt.Some?
    && match task.status
       case Succeeded => task.completedAt.value + 7 * 86400 < now
       case Failed => task.completedAt.value + 30 * 86400 < now
       case _ => false
  }

  lemma OverdueExpired(task: Task, now: Instant)
    requires WellFormed(task, now)
    ensures IsExpired(task, now) <==> Overdue(task, now)
  {
  }

  /** A clean-up takes overdue rows, and all of them unless it reaches its limit. */
  lemma CleanupMeaning(rows: Rows, ids: set<TaskId>, now: Instant, limit: nat)
    requires Limited(ids, ExpiredIds(rows, now), limit)
    ensures |ids| < limit ==> forall id :: id in rows && id !in ids ==> !Overdue(rows[id], now)
    ensures forall id :: id in ids && WellFormed(rows[id], now) ==> Overdue(rows[id], now)
  {
    SubsetCard(ids, ExpiredIds(rows, now));
    forall id | id in rows && WellFormed(rows[id], now) ensures id in ExpiredIds(rows, now) <==> Overdue(rows[id], now) {
      OverdueExpired(rows[id], now);
    }
  }

  // ---- The table, updated in place -------------------------------------------------------------

  class TaskTable {
    var rows: Rows

    constructor ()
      ensures rows == map[]
    {
      rows := map[];
    }

    /** A fresh UUID names the new row. */
    method CreateTask(id: TaskId, taskType: string, payload: Payload, now: Instant) returns (task: Task)
      requires id !in rows
      modifies this
      ensures rows == old(rows)[id := task]
      ensures task == Task(taskType, payload, Pending, None, None, now, now, None, None)
    {
      task := NewTask(taskType, payload, now);
      rows := rows[id := task];
    }

    method GetTask(id: TaskId) returns (task: Option<Task>)
      ensures task == if id in rows then Some(rows[id]) else None
    {
      task := if id in rows then Some(rows[id]) else None;
    }

    /** Picks ids from `matching` until the limit is reached, as a LIMIT without ORDER BY may. */
    static method TakeAny(matching: set<TaskId>, limit: nat) returns (chosen: set<TaskId>)
      ensures Limited(chosen, matching, limit)
    {
      chosen := {};
      var rest := matching;
      while |chosen| < limit && rest != {}
        invariant chosen + rest == matching && chosen !! rest
        invariant |chosen| <= limit
        decreases rest
      {
        var id :| id in rest;
        chosen, rest := chosen + {id}, rest - {id};
      }
      SubsetCard(chosen, matching);
      assert rest == matching - chosen;
    }

    method FetchPending(limit: nat) returns (pending: set<TaskId>)
      ensures Limited(pending, PendingIds(rows), limit)
    {
      pending := TakeAny(PendingIds(rows), limit);
    }

    method ClaimPendingTask(id: TaskId, now: Instant) returns (task: Option<Task>)
      modifies this
      ensures rows == Claim(old(rows), id, now)
      ensures if id in old(rows) && old(rows)[id].status == Pending
              then rows == old(rows)[id := old(rows)[id].(status := Running, updatedAt := now)] && task == Some(rows[id])
              else rows == old(rows) && task == None
    {
      var rowcount := 0;
      if id in rows && rows[id].status == Pending {
        rows := rows[id := rows[id].(status := Running, updatedAt := now)];
        rowcount := 1;
      }
      if rowcount != 1 { return None; }
      task := GetTask(id);
    }

    method MarkSucceeded(id: TaskId, result: string, now: Instant)
      modifies this
      ensures rows == Succeed(old(rows), id, result, now)
    {
      var expiresAt := now + TTL_SUCCEEDED;
      if id in rows {
        rows := rows[id := rows[id].(status := Succeeded, result := Some(result), updatedAt := now,
                                     completedAt := Some(now), expiresAt := Some(expiresAt))];
      }
    }

    method MarkFailed(id: TaskId, errorCode: string, now: Instant)
      modifies this
      ensures rows == Fail(old(rows), id, errorCode, now)
    {
      var expiresAt := now + TTL_FAILED;
      if id in rows {
        rows := rows[id := rows[id].(status := Failed, error := Some(errorCode), updatedAt := now,
                                     completedAt := Some(now), expiresAt := Some(expiresAt))];
      }
    }

    /** One clean-up with nothing running beside it removes min(limit, expired) rows, all expired. */
    method CleanupExpiredTasks(now: Instant, limit: nat) returns (count: nat)
      modifies this
      ensures exists ids :: Limited(ids, ExpiredIds(old(rows), now), limit) && rows == DeleteIds(old(rows), ids)
      ensures count < limit ==> forall id :: id in rows ==> !Overdue(rows[id], now)
      ensures forall id :: id in old(rows) && id !in rows && WellFormed(old(rows)[id], now) ==> Overdue(old(rows)[id], now)
      ensures forall id :: id in rows ==> id in old(rows) && rows[id] == old(rows)[id]
      ensures count == Min(limit, |ExpiredIds(old(rows), now)|) == |old(rows)| - |rows|
    {
      var expiredIds := TakeAny(ExpiredIds(rows, now), limit);
      CleanupMeaning(rows, expiredIds, now, limit);
      ghost var before := rows;
      if expiredIds == {} {
        assert DeleteIds(rows, expiredIds) == rows;
        return 0;
      }
      count := |rows.Keys * expiredIds|;
      assert rows.Keys * expiredIds == expiredIds;
      rows := rows - expiredIds;
      assert rows.Keys == before.Keys - expiredIds;
      SubsetCard(expiredIds, before.Keys);
    }
  }
}

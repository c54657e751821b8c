/**
The code one worker runs, app/tasks/worker.py, on the table: claim, execute, mark. A pass over the
polled tasks is proved against a description of the table it leaves, and one task's processing is a
run of the queue protocol.
*/
module TaskWorker {
  import opened Common
  import opened TaskRows
  import Q = TaskQueue

  /** The row a worker leaves behind after executing a task it claimed. */
  function Finished(task: Task, outcome: Q.Outcome, now: Instant): Task {
    match outcome
    case Ok(result) =>
      task.(status := Succeeded, result := Some(result), updatedAt := now,
            completedAt := Some(now), expiresAt := Some(now + 7 * 86400))
    case Error =>
      task.(status := Failed, error := Some("TASK_EXECUTION_FAILED"), updatedAt := now,
            completedAt := Some(now), expiresAt := Some(now + 30 * 86400))
  }

  /** The table after the tasks `ids` were executed, each with its own outcome. */
  function Processed(rows: Rows, ids: set<TaskId>, outcomes: map<TaskId, Q.Outcome>, now: Instant): Rows {
    map id | id in rows :: if id in ids then Finished(rows[id], OutcomeOf(outcomes, id), now) else rows[id]
  }

  /** What `refresh_client_summary` does for a task: it returns, or it raises. */
  function OutcomeOf(outcomes: map<TaskId, Q.Outcome>, id: TaskId): Q.Outcome {
    if id in outcomes then outcomes[id] else Q.Error
  }

  class Worker {
    const tasks: TaskTable

    constructor (tasks: TaskTable)
      ensures this.tasks == tasks
    {
      this.tasks := tasks;
    }

    method ProcessTask(id: TaskId, outcome: Q.Outcome, now: Instant)
      requires id in tasks.rows
      modifies tasks
      ensures tasks.rows == old(tasks.rows)[id := Finished(old(tasks.rows)[id], outcome, now)]
    {
      match outcome
      case Ok(result) => tasks.MarkSucceeded(id, result, now);
      case Error => tasks.MarkFailed(id, EXECUTION_FAILED, now);
    }

    /** Executes the task only if it is still pending; otherwise leaves the table alone. */
    method ProcessTaskById(id: TaskId, outcome: Q.Outcome, now: Instant) returns (executed: bool)
      modifies tasks
      ensures executed == Claimable(old(tasks.rows), id)
      ensures tasks.rows == if executed then old(tasks.rows)[id := Finished(old(tasks.rows)[id], outcome, now)]
                            else old(tasks.rows)
    {
      var task := tasks.ClaimPendingTask(id, now);
      if task == None { return false; }
      ProcessTask(id, outcome, now);
      executed := true;
    }

    /**
    One pass alone on the table: it executes min(5, pending) tasks, each once, in any order, and
    leaves every other row as it was.
    */
    method WorkerPass(outcomes: map<TaskId, Q.Outcome>, now: Instant) returns (ids: set<TaskId>)
      modifies tasks
      ensures Limited(ids, PendingIds(old(tasks.rows)), 5)
      ensures tasks.rows == Processed(old(tasks.rows), ids, outcomes, now)
      ensures |PendingIds(tasks.rows)| == Max(0, |PendingIds(old(tasks.rows))| - 5)
    {
      ids := tasks.FetchPending(Q.MAX_CONCURRENT_TASKS);
      ghost var before := tasks.rows;
      var rest := ids;
      while rest != {}
        invariant rest <= ids
        invariant tasks.rows == Processed(before, ids - rest, outcomes, now)
        decreases rest
      {
        var id :| id in rest;
        assert Claimable(before, id);
        var executed := ProcessTaskById(id, OutcomeOf(outcomes, id), now);
        rest := rest - {id};
      }
      assert ids - rest == ids;
      ProcessedPending(before, ids, outcomes, now);
    }
  }

  lemma ProcessedPending(rows: Rows, ids: set<TaskId>, outcomes: map<TaskId, Q.Outcome>, now: Instant)
    requires Limited(ids, PendingIds(rows), Q.MAX_CONCURRENT_TASKS)
    ensures |PendingIds(Processed(rows, ids, outcomes, now))| == Max(0, |PendingIds(rows)| - Q.MAX_CONCURRENT_TASKS)
  {
    assert PendingIds(Processed(rows, ids, outcomes, now)) == PendingIds(rows) - ids;
    SubsetCard(ids, PendingIds(rows));
  }

  /**
  Processing one task is three steps of the protocol: try to claim, load, finish. Taken with
  nothing between them they are enabled, and leave the table `ProcessTaskById` leaves.
  */
  lemma ProcessingIsARun(q: Q.Queue, w: Q.ProcessId, id: TaskId, outcome: Q.Outcome)
    requires id in Q.WorkerOf(q, w).stale && Claimable(q.rows, id)
    ensures var steps := [Q.TryClaim(w, id), Q.Load(w, id), Q.Finish(w, id, outcome)];
            && Q.Legal(q, steps)
            && Q.Run(q, steps).rows == q.rows[id := Finished(q.rows[id], outcome, q.now)]
            && Q.Run(q, steps).handed == q.handed + [Q.Handout(w, id)]
  {
    var claimed := Q.Apply(q, Q.TryClaim(w, id));
    var loaded := Q.Apply(claimed, Q.Load(w, id));
    var done := Q.Apply(loaded, Q.Finish(w, id, outcome));
    assert id in Q.WorkerOf(claimed, w).claimed;
    assert id in Q.WorkerOf(loaded, w).held;
    assert done.rows == q.rows[id := Finished(q.rows[id], outcome, q.now)];
    ThreeSteps(q, Q.TryClaim(w, id), Q.Load(w, id), Q.Finish(w, id, outcome));
  }

  lemma ThreeSteps(q: Q.Queue, a: Q.Step, b: Q.Step, c: Q.Step)
    ensures Q.Run(q, [a, b, c]) == Q.Apply(Q.Apply(Q.Apply(q, a), b), c)
    ensures Q.Legal(q, [a, b, c]) <==>
            Q.Enabled(q, a) && Q.Enabled(Q.Apply(q, a), b) && Q.Enabled(Q.Apply(Q.Apply(q, a), b), c)
  {
    var q1 := Q.Apply(q, a);
    var q2 := Q.Apply(q1, b);
    assert [a, b, c][1..] == [b, c] && [b, c][1..] == [c] && [c][1..] == [];
    assert Q.Run(q2, [c]) == Q.Apply(q2, c) && Q.Run(q1, [b, c]) == Q.Run(q2, [c]);
    assert Q.Legal(q2, [c]) <==> Q.Enabled(q2, c);
    assert Q.Legal(q1, [b, c]) <==> Q.Enabled(q1, b) && Q.Legal(q2, [c]);
  }
}

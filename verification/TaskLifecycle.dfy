/** What may become of a task over a run, and when it may be deleted. */
module TaskLifecycle {
  import opened Common
  import opened TaskRows
  import opened TaskQueue
  import opened TaskQueueInv

  function Rank(status: Status): nat {
    match status
    case Pending => 0
    case Running => 1
    case Succeeded => 2
    case Failed => 2
  }

  /** How long a finished task is kept: seven days, or thirty, in seconds. */
  function Retention(status: Status): Instant {
    if status == Succeeded then 7 * 86400 else 30 * 86400
  }

  function Verdict(succeeded: bool): Status {
    if succeeded then Succeeded else Failed
  }

  /**
  What may have become of a row `task`, seen at `now`, in the later state `q'`: it only moves forward,
  a terminal row never changes, and it is gone only after the retention time of the outcome it came
  to, counted from its completion, which for a row still open lies ahead.
  */
  ghost predicate RowLater(task: Task, now: Instant, id: TaskId, q': Queue) {
    if id in q'.rows then
      var task' := q'.rows[id];
      && task'.payload == task.payload && task'.createdAt == task.createdAt
      && Rank(task.status) <= Rank(task'.status)
      && (Terminal(task) ==> task' == task)
      && (!Terminal(task) && Terminal(task') ==>
            && task'.completedAt.Some? && now <= task'.completedAt.value
            && task'.expiresAt == Some(task'.completedAt.value + Retention(task'.status)))
    else if Terminal(task) then task.expiresAt.Some? && task.expiresAt.value < q'.now
    else id in q'.verdicts && now + Retention(Verdict(q'.verdicts[id])) < q'.now
  }

  /** `q'` is a possible later state than `q`, as far as tasks are concerned. */
  ghost predicate Later(q: Queue, q': Queue) {
    && q.now <= q'.now
    && q.submitted <= q'.submitted
    && (forall id :: id in q.verdicts ==> id in q'.verdicts && q'.verdicts[id] == q.verdicts[id])
    && (forall id :: id in q.submitted && id !in q.rows ==> id !in q'.rows)
    && (forall id :: id in q.rows ==> RowLater(q.rows[id], q.now, id, q'))
  }

  lemma RowLaterTransitive(task: Task, now: Instant, id: TaskId, q': Queue, q'': Queue)
    requires now <= q'.now && Later(q', q'') && VerdictsInv(q')
    requires RowLater(task, now, id, q') && id in q'.submitted
    ensures RowLater(task, now, id, q'')
  {
    if id in q'.rows {
      assert RowLater(q'.rows[id], q'.now, id, q'');
    }
  }

  lemma LaterTransitive(q: Queue, q': Queue, q'': Queue)
    requires RowsInv(q) && VerdictsInv(q') && Later(q, q') && Later(q', q'')
    ensures Later(q, q'')
  {
    forall id | id in q.rows ensures RowLater(q.rows[id], q.now, id, q'') {
      RowLaterTransitive(q.rows[id], q.now, id, q', q'');
    }
  }

  /** Changing one row leaves the others as they are. */
  lemma LaterRow(q: Queue, q': Queue, id: TaskId)
    requires id in q.rows && q'.rows.Keys == q.rows.Keys && q.rows.Keys <= q.submitted
    requires q'.now == q.now && q'.submitted == q.submitted
    requires forall j :: j in q.verdicts ==> j in q'.verdicts && q'.verdicts[j] == q.verdicts[j]
    requires forall j :: j in q.rows && j != id ==> q'.rows[j] == q.rows[j]
    requires RowLater(q.rows[id], q.now, id, q')
    ensures Later(q, q')
  {
  }

  lemma LaterClaim(q: Queue, w: ProcessId, id: TaskId)
    requires Ledger(q)
    ensures Later(q, ClaimFor(q, w, id))
  {
    var q' := ClaimFor(q, w, id);
    if Claimable(q.rows, id) {
      assert q'.rows.Keys == q.rows.Keys;
      LaterRow(q, q', id);
    }
  }

  lemma FinishedLater(q: Queue, w: ProcessId, id: TaskId, outcome: Outcome)
    requires id in q.rows && q.rows[id].status == Running
    ensures RowLater(q.rows[id], q.now, id, Apply(q, Finish(w, id, outcome)))
  {
  }

  lemma LaterFinish(q: Queue, w: ProcessId, id: TaskId, outcome: Outcome)
    requires Ledger(q) && id in q.rows && q.rows[id].status == Running
    ensures Later(q, Apply(q, Finish(w, id, outcome)))
  {
    var q' := Apply(q, Finish(w, id, outcome));
    assert q'.rows.Keys == q.rows.Keys;
    assert id !in q.verdicts;
    assert RowLater(q.rows[id], q.now, id, q') by { FinishedLater(q, w, id, outcome); }
    LaterRow(q, q', id);
  }

  lemma LaterDelete(q: Queue, c: ProcessId)
    requires RowsInv(q) && CleanersInv(q)
    ensures Later(q, Apply(q, Delete(c)))
  {
    var q' := Apply(q, Delete(c));
    forall id | id in q.rows ensures RowLater(q.rows[id], q.now, id, q') {
      if id in SelectionOf(q, c) { SelectionExpired(q, c, id); }
    }
  }

  /** Steps that leave the rows alone, apart from adding new ones. */
  lemma LaterSame(q: Queue, q': Queue)
    requires RowsInv(q) && q.now <= q'.now && q.submitted <= q'.submitted
    requires forall id :: id in q.rows ==> id in q'.rows && q'.rows[id] == q.rows[id]
    requires forall id :: id in q'.rows ==> id in q.rows || id !in q.submitted
    requires q'.verdicts == q.verdicts
    ensures Later(q, q')
  {
  }

  lemma LaterQuiet(q: Queue, s: Step)
    requires RowsInv(q) && Enabled(q, s)
    requires !s.TryClaim? && !s.ClaimRaises? && !s.Finish? && !s.Delete?
    ensures Later(q, Apply(q, s))
  {
    LaterSame(q, Apply(q, s));
  }

  /** Only processes changed. */
  lemma LaterMemory(q: Queue, q': Queue, q'': Queue)
    requires Later(q, q')
    requires q''.rows == q'.rows && q''.now == q'.now && q''.submitted == q'.submitted && q''.verdicts == q'.verdicts
    ensures Later(q, q'')
  {
    forall id | id in q.rows ensures RowLater(q.rows[id], q.now, id, q'') {
      assert RowLater(q.rows[id], q.now, id, q');
    }
  }

  lemma LaterTryClaim(q: Queue, w: ProcessId, id: TaskId)
    requires Ledger(q)
    ensures Later(q, Apply(q, TryClaim(w, id)))
  {
    LaterClaim(q, w, id);
    LaterMemory(q, ClaimFor(q, w, id), Apply(q, TryClaim(w, id)));
  }

  lemma LaterClaimRaises(q: Queue, w: ProcessId, id: TaskId, applied: bool)
    requires Ledger(q)
    ensures Later(q, Apply(q, ClaimRaises(w, id, applied)))
  {
    LaterClaim(q, w, id);
    LaterSame(q, q);
    LaterMemory(q, if applied then ClaimFor(q, w, id) else q, Apply(q, ClaimRaises(w, id, applied)));
  }

  lemma StepLater(q: Queue, s: Step)
    requires Inv(q) && Enabled(q, s)
    ensures Later(q, Apply(q, s))
  {
    match s
    case TryClaim(w, id) => LaterTryClaim(q, w, id);
    case ClaimRaises(w, id, applied) => LaterClaimRaises(q, w, id, applied);
    case Finish(w, id, outcome) =>
      HeldRuns(q, w, id);
      LaterFinish(q, w, id, outcome);
    case Delete(c) => LaterDelete(q, c);
    case _ => LaterQuiet(q, s);
  }

  /**
  Over every run: statuses only advance, finished tasks keep their outcome, deleted tasks stay
  deleted, and a task is deleted only after its own retention time.
  */
  lemma {:induction false} RunLater(q: Queue, steps: seq<Step>)
    requires Inv(q) && Legal(q, steps)
    ensures Later(q, Run(q, steps))
    decreases |steps|
  {
    if steps != [] {
      var q' := Apply(q, steps[0]);
      StepLater(q, steps[0]);
      StepInv(q, steps[0]);
      RunLater(q', steps[1..]);
      LaterTransitive(q, q', Run(q, steps));
    }
  }

  lemma DeleteTakesExpired(q: Queue, c: ProcessId, id: TaskId)
    requires Inv(q) && id in q.rows && id !in Apply(q, Delete(c)).rows
    ensures Terminal(q.rows[id]) && q.rows[id].completedAt.Some?
    ensures q.rows[id].completedAt.value + Retention(q.rows[id].status) < q.now
  {
    SelectionExpired(q, c, id);
    assert WellFormed(q.rows[id], q.now);
  }

  /**
  The clean-up delete checks nothing, yet in every reachable state the rows a cleaner is about to
  delete are terminal and past their retention time, whatever happened since it selected them.
  */
  lemma CleanupIsSafe(now: Instant, steps: seq<Step>, c: ProcessId, id: TaskId)
    requires Legal(Initial(now), steps)
    ensures var q := Run(Initial(now), steps);
            id in q.rows && id !in Apply(q, Delete(c)).rows ==>
              && Terminal(q.rows[id]) && q.rows[id].completedAt.Some?
              && q.rows[id].completedAt.value + Retention(q.rows[id].status) < q.now
  {
    InitialInv(now);
    RunInv(Initial(now), steps);
    var q := Run(Initial(now), steps);
    if id in q.rows && id !in Apply(q, Delete(c)).rows {
      DeleteTakesExpired(q, c, id);
    }
  }

  /** The counts all cleaners returned sum to the number of tasks removed: none is counted twice. */
  lemma CleanupCounts(now: Instant, steps: seq<Step>)
    requires Legal(Initial(now), steps)
    ensures var q := Run(Initial(now), steps);
            q.rows.Keys <= q.submitted && q.removed == |q.submitted - q.rows.Keys|
  {
    InitialInv(now);
    RunInv(Initial(now), steps);
    SubsetCard(Run(Initial(now), steps).rows.Keys, Run(Initial(now), steps).submitted);
  }

  /** In every reachable state each row is well formed, and its outcome is the one it was marked with. */
  lemma RowsWellFormed(now: Instant, steps: seq<Step>, id: TaskId)
    requires Legal(Initial(now), steps)
    ensures var q := Run(Initial(now), steps);
            id in q.rows ==>
              && WellFormed(q.rows[id], q.now)
              && (Terminal(q.rows[id]) <==> id in q.verdicts)
              && (id in q.verdicts ==> (q.verdicts[id] <==> q.rows[id].status == Succeeded))
  {
    InitialInv(now);
    RunInv(Initial(now), steps);
  }

  /**
  In every reachable state a row is up for clean-up exactly when its task was finished and the retention
  time of its outcome, counted from its completion, is over.
  */
  lemma DueMeaning(now: Instant, steps: seq<Step>, id: TaskId)
    requires Legal(Initial(now), steps)
    ensures var q := Run(Initial(now), steps);
            id in ExpiredIds(q.rows, q.now) <==>
              && id in q.rows && id in q.verdicts && q.rows[id].completedAt.Some?
              && q.rows[id].completedAt.value + (if q.verdicts[id] then 7 * 86400 else 30 * 86400) < q.now
  {
    RowsWellFormed(now, steps, id);
    var q := Run(Initial(now), steps);
    if id in q.rows { OverdueExpired(q.rows[id], q.now); }
  }

  /** What a worker leaves of the row of a task it finishes: the outcome and its date; the rest stays. */
  lemma FinishMeaning(q: Queue, w: ProcessId, id: TaskId, outcome: Outcome)
    requires Inv(q) && Enabled(q, Finish(w, id, outcome))
    ensures var q' := Apply(q, Finish(w, id, outcome));
            && q'.rows.Keys == q.rows.Keys && (forall j :: j in q.rows && j != id ==> q'.rows[j] == q.rows[j])
            && id in q.rows && id in q'.verdicts
            && var was, row := q.rows[id], q'.rows[id];
            && row.taskType == was.taskType && row.payload == was.payload && row.createdAt == was.createdAt
            && row.updatedAt == q.now && row.completedAt == Some(q.now)
            && row.status == (if outcome.Ok? then Succeeded else Failed) && (q'.verdicts[id] <==> outcome.Ok?)
            && row.result == (if outcome.Ok? then Some(outcome.result) else None)
            && row.error == (if outcome.Ok? then None else Some("TASK_EXECUTION_FAILED"))
  {
    HeldRuns(q, w, id);
    assert WellFormed(q.rows[id], q.now);
  }
}

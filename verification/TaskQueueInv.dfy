/** The invariant of the queue protocol holds in every reachable state. */
module TaskQueueInv {
  import opened Common
  import opened TaskRows
  import opened TaskQueue

  lemma AppendOnce(log: seq<Handout>, h: Handout)
    requires AtMostOnce(log) && h.id !in Ids(log)
    ensures AtMostOnce(log + [h])
    ensures Ids(log + [h]) == Ids(log) + {h.id}
  {
    assert forall i :: 0 <= i < |log| ==> log[i] in log && log[i].id in Ids(log);
    assert forall g :: g in log + [h] <==> g in log || g == h;
  }

  lemma OneWorker(log: seq<Handout>, a: ProcessId, b: ProcessId, id: TaskId)
    requires AtMostOnce(log) && Handout(a, id) in log && Handout(b, id) in log
    ensures a == b
  {
  }

  // ---- Framing ---------------------------------------------------------------------------------

  /** Rows a step may not take out of the running state under `w`. */
  ghost predicate StillRunning(q: Queue, q': Queue, ids: set<TaskId>) {
    forall id :: id in ids && id in q.rows && q.rows[id].status == Running ==>
                   id in q'.rows && q'.rows[id].status == Running
  }

  lemma WorkerFrame(q: Queue, q': Queue, w: ProcessId)
    requires WorkerInv(q, w)
    requires WorkerOf(q', w).claimed <= WorkerOf(q, w).claimed
    requires WorkerOf(q', w).held <= WorkerOf(q, w).held
    requires StillRunning(q, q', WorkerOf(q', w).claimed + WorkerOf(q', w).held)
    requires q.handed <= q'.handed && q.started <= q'.started
    requires WorkerOf(q', w).claimed !! Ids(q'.started)
    ensures WorkerInv(q', w)
  {
    var me, me' := WorkerOf(q, w), WorkerOf(q', w);
    forall id | id in me'.claimed + me'.held ensures RunningFor(q', w, id) {
      assert id in me.claimed || id in me.held;
      assert RunningFor(q, w, id);
    }
    forall id | id in me'.held ensures Handout(w, id) in q'.started {
      assert id in me.held;
    }
  }

  /** Steps that touch neither the logs nor a running row keep every worker's invariant. */
  lemma WorkersFrame(q: Queue, q': Queue)
    requires WorkersInv(q) && q'.handed == q.handed && q'.started == q.started
    requires forall w :: WorkerOf(q', w).claimed <= WorkerOf(q, w).claimed && WorkerOf(q', w).held <= WorkerOf(q, w).held
    requires forall id :: id in q.rows && q.rows[id].status == Running ==> id in q'.rows && q'.rows[id].status == Running
    ensures WorkersInv(q')
  {
    forall w ensures WorkerInv(q', w) {
      assert WorkerInv(q, w);
      assert WorkerOf(q', w).claimed <= WorkerOf(q, w).claimed;
      WorkerFrame(q, q', w);
    }
  }

  lemma CleanersFrame(q: Queue, q': Queue)
    requires CleanersInv(q) && q.submitted <= q'.submitted
    requires forall c :: SelectionOf(q', c) <= SelectionOf(q, c)
    requires forall id :: id in q'.rows && id in q.submitted ==>
               id in q.rows && (IsExpired(q.rows[id], q.now) ==> IsExpired(q'.rows[id], q'.now))
    ensures CleanersInv(q')
  {
    forall c, id | id in SelectionOf(q', c)
      ensures id in q'.submitted && (id in q'.rows ==> IsExpired(q'.rows[id], q'.now))
    {
      assert SelectionOf(q', c) <= SelectionOf(q, c);
      assert id in SelectionOf(q, c);
    }
  }

  // ---- One step of each kind -------------------------------------------------------------------

  /** Steps that touch processes only, or the clock. */
  lemma LedgerFrame(q: Queue, q': Queue)
    requires Ledger(q) && q'.rows == q.rows && q'.submitted == q.submitted && q'.removed == q.removed
    requires q'.handed == q.handed && q'.verdicts == q.verdicts && q.now <= q'.now
    ensures Ledger(q')
  {
  }

  lemma SubmitRows(q: Queue, id: TaskId, taskType: string, payload: Payload)
    requires RowsInv(q)
    ensures RowsInv(Apply(q, Submit(id, taskType, payload)))
  {
  }

  lemma SubmitHanded(q: Queue, id: TaskId, taskType: string, payload: Payload)
    requires HandedInv(q) && id !in q.submitted
    ensures HandedInv(Apply(q, Submit(id, taskType, payload)))
  {
  }

  lemma SubmitVerdicts(q: Queue, id: TaskId, taskType: string, payload: Payload)
    requires VerdictsInv(q) && id !in q.submitted
    ensures VerdictsInv(Apply(q, Submit(id, taskType, payload)))
  {
  }

  lemma SubmitCount(q: Queue, id: TaskId, taskType: string, payload: Payload)
    requires RowsInv(q) && CountInv(q) && id !in q.submitted
    ensures CountInv(Apply(q, Submit(id, taskType, payload)))
  {
    assert Apply(q, Submit(id, taskType, payload)).rows.Keys == q.rows.Keys + {id};
  }

  lemma GrantLedger(q: Queue, w: ProcessId, id: TaskId)
    requires Ledger(q) && Claimable(q.rows, id)
    ensures Ledger(ClaimFor(q, w, id))
  {
    AppendOnce(q.handed, Handout(w, id));
    assert ClaimFor(q, w, id).rows.Keys == q.rows.Keys;
  }

  lemma GrantWorkers(q: Queue, w: ProcessId, id: TaskId)
    requires WorkersInv(q) && Claimable(q.rows, id)
    ensures WorkersInv(ClaimFor(q, w, id))
  {
    var q' := ClaimFor(q, w, id);
    forall v ensures WorkerInv(q', v) {
      assert WorkerInv(q, v);
      WorkerFrame(q, q', v);
    }
  }

  /** The claim statement alone, whoever remembers its outcome. */
  lemma ClaimForInv(q: Queue, w: ProcessId, id: TaskId)
    requires Inv(q)
    ensures Inv(ClaimFor(q, w, id))
    ensures Claimable(q.rows, id) ==> RunningFor(ClaimFor(q, w, id), w, id) && id !in Ids(q.started)
  {
    if Claimable(q.rows, id) {
      GrantLedger(q, w, id);
      GrantWorkers(q, w, id);
      CleanersFrame(q, ClaimFor(q, w, id));
      assert forall h :: h in q.started ==> h in q.handed && h.id in Ids(q.handed);
    }
  }

  /** The worker that won remembers what it won. */
  lemma WinnerRemembers(mid: Queue, q': Queue, w: ProcessId, id: TaskId)
    requires WorkerInv(mid, w) && RunningFor(mid, w, id) && id !in Ids(mid.started)
    requires q'.rows == mid.rows && q'.handed == mid.handed && q'.started == mid.started
    requires WorkerOf(q', w).claimed == WorkerOf(mid, w).claimed + {id} && WorkerOf(q', w).held == WorkerOf(mid, w).held
    ensures WorkerInv(q', w)
  {
    forall j | j in WorkerOf(q', w).claimed + WorkerOf(q', w).held ensures RunningFor(q', w, j) {
      assert RunningFor(mid, w, j);
    }
  }

  lemma TryClaimWorkers(q: Queue, w: ProcessId, id: TaskId)
    requires WorkersInv(ClaimFor(q, w, id))
    requires Claimable(q.rows, id) ==> RunningFor(ClaimFor(q, w, id), w, id) && id !in Ids(q.started)
    ensures WorkersInv(Apply(q, TryClaim(w, id)))
  {
    var mid, q' := ClaimFor(q, w, id), Apply(q, TryClaim(w, id));
    forall v ensures WorkerInv(q', v) {
      assert WorkerInv(mid, v);
      if v != w || !Claimable(q.rows, id) {
        WorkerFrame(mid, q', v);
      } else {
        WinnerRemembers(mid, q', w, id);
      }
    }
  }

  lemma LoadWorkers(q: Queue, w: ProcessId, id: TaskId)
    requires Inv(q) && Enabled(q, Load(w, id))
    ensures WorkersInv(Apply(q, Load(w, id)))
  {
    var q' := Apply(q, Load(w, id));
    LoadFindsRow(q, w, id);
    assert WorkerInv(q, w);
    assert RunningFor(q, w, id);
    AppendOnce(q.started, Handout(w, id));
    forall v ensures WorkerInv(q', v) {
      assert WorkerInv(q, v);
      if v != w {
        assert id !in WorkerOf(q, v).claimed by {
          if id in WorkerOf(q, v).claimed {
            assert RunningFor(q, v, id);
            OneWorker(q.handed, v, w, id);
          }
        }
        WorkerFrame(q, q', v);
      } else {
        LoaderExecutes(q, q', w, id);
      }
    }
  }

  /** The worker that loaded a task executes it. */
  lemma LoaderExecutes(q: Queue, q': Queue, w: ProcessId, id: TaskId)
    requires WorkerInv(q, w) && RunningFor(q, w, id) && AtMostOnce(q'.started)
    requires q'.rows == q.rows && q'.handed == q.handed && q'.started == q.started + [Handout(w, id)]
    requires WorkerOf(q', w).claimed == WorkerOf(q, w).claimed - {id} && WorkerOf(q', w).held == WorkerOf(q, w).held + {id}
    requires Ids(q'.started) == Ids(q.started) + {id}
    ensures WorkerInv(q', w)
  {
    assert Handout(w, id) in q'.started;
    forall j | j in WorkerOf(q', w).claimed + WorkerOf(q', w).held ensures RunningFor(q', w, j) {
      assert j in WorkerOf(q, w).claimed || j in WorkerOf(q, w).held || j == id;
      assert j != id ==> RunningFor(q, w, j);
    }
  }

  /** After a won claim the reload always finds the row: no cleaner can have taken it. */
  lemma LoadFindsRow(q: Queue, w: ProcessId, id: TaskId)
    requires Inv(q) && Enabled(q, Load(w, id))
    ensures id in q.rows && q.rows[id].status == Running
    ensures id in WorkerOf(Apply(q, Load(w, id)), w).held
  {
    assert WorkerInv(q, w);
    assert RunningFor(q, w, id);
  }

  lemma HeldRuns(q: Queue, w: ProcessId, id: TaskId)
    requires WorkersInv(q) && id in WorkerOf(q, w).held
    ensures id in q.rows && q.rows[id].status == Running
  {
    assert WorkerInv(q, w);
    assert RunningFor(q, w, id);
  }

  lemma FinishRows(q: Queue, w: ProcessId, id: TaskId, outcome: Outcome)
    requires RowsInv(q) && id in q.rows && q.rows[id].status == Running
    ensures RowsInv(Apply(q, Finish(w, id, outcome)))
  {
    assert WellFormed(q.rows[id], q.now);
  }

  lemma FinishHanded(q: Queue, w: ProcessId, id: TaskId, outcome: Outcome)
    requires HandedInv(q) && id in q.rows && q.rows[id].status == Running
    ensures HandedInv(Apply(q, Finish(w, id, outcome)))
  {
    var q' := Apply(q, Finish(w, id, outcome));
    assert forall j :: Claimable(q'.rows, j) <==> Claimable(q.rows, j);
  }

  lemma FinishVerdicts(q: Queue, w: ProcessId, id: TaskId, outcome: Outcome)
    requires RowsInv(q) && VerdictsInv(q) && id in q.rows
    ensures VerdictsInv(Apply(q, Finish(w, id, outcome)))
  {
  }

  lemma FinishCount(q: Queue, w: ProcessId, id: TaskId, outcome: Outcome)
    requires CountInv(q) && id in q.rows
    ensures CountInv(Apply(q, Finish(w, id, outcome)))
  {
    assert Apply(q, Finish(w, id, outcome)).rows.Keys == q.rows.Keys;
  }

  lemma FinishWorkers(q: Queue, w: ProcessId, id: TaskId, outcome: Outcome)
    requires Inv(q) && Enabled(q, Finish(w, id, outcome))
    ensures WorkersInv(Apply(q, Finish(w, id, outcome)))
  {
    var q' := Apply(q, Finish(w, id, outcome));
    forall v ensures WorkerInv(q', v) {
      assert WorkerInv(q, v);
      assert id !in WorkerOf(q', v).claimed + WorkerOf(q', v).held by {
        if id in WorkerOf(q', v).claimed + WorkerOf(q', v).held {
          HeldOnce(q, w, v, id);
        }
      }
      WorkerFrame(q, q', v);
    }
  }

  /** A task being executed is in the hands of nobody else. */
  lemma HeldOnce(q: Queue, w: ProcessId, v: ProcessId, id: TaskId)
    requires Inv(q) && id in WorkerOf(q, w).held
    requires id in WorkerOf(q, v).claimed || id in WorkerOf(q, v).held
    ensures v == w && id !in WorkerOf(q, v).claimed
  {
    assert WorkerInv(q, w) && WorkerInv(q, v);
    assert RunningFor(q, w, id) && RunningFor(q, v, id);
    OneWorker(q.handed, w, v, id);
    assert Handout(w, id) in q.started;
    assert id in Ids(q.started);
  }

  lemma SelectCleaners(q: Queue, c: ProcessId, ids: set<TaskId>)
    requires CleanersInv(q) && RowsInv(q) && ids <= ExpiredIds(q.rows, q.now)
    ensures CleanersInv(Apply(q, Select(c, ids)))
  {
    var q' := Apply(q, Select(c, ids));
    forall d, id | id in SelectionOf(q', d)
      ensures id in q'.submitted && (id in q'.rows ==> IsExpired(q'.rows[id], q'.now))
    {
      if d == c {
        assert id in ExpiredIds(q.rows, q.now);
      } else {
        assert id in SelectionOf(q, d);
      }
    }
  }

  /** The unguarded delete removes terminal, expired rows only. */
  lemma SelectionExpired(q: Queue, c: ProcessId, id: TaskId)
    requires CleanersInv(q) && id in SelectionOf(q, c) && id in q.rows
    ensures IsExpired(q.rows[id], q.now)
  {
  }

  lemma DeleteRows(q: Queue, c: ProcessId)
    requires Ledger(q)
    ensures RowsInv(Apply(q, Delete(c)))
  {
  }

  /** No row a cleaner may delete is open. */
  lemma DeleteKeepsOpen(q: Queue, c: ProcessId, id: TaskId)
    requires CleanersInv(q)
    ensures var rows' := Apply(q, Delete(c)).rows;
            && (id in rows' ==> id in q.rows && rows'[id] == q.rows[id])
            && (id in q.rows && !Terminal(q.rows[id]) ==> id in rows')
  {
    if id in SelectionOf(q, c) && id in q.rows { SelectionExpired(q, c, id); }
  }

  lemma DeleteHanded(q: Queue, c: ProcessId)
    requires HandedInv(q) && CleanersInv(q)
    ensures HandedInv(Apply(q, Delete(c)))
  {
    var q' := Apply(q, Delete(c));
    forall id ensures Claimable(q'.rows, id) <==> Claimable(q.rows, id) {
      DeleteKeepsOpen(q, c, id);
    }
  }

  lemma DeleteVerdicts(q: Queue, c: ProcessId)
    requires VerdictsInv(q) && CleanersInv(q)
    ensures VerdictsInv(Apply(q, Delete(c)))
  {
    var q' := Apply(q, Delete(c));
    forall id | id in q'.submitted && id !in q'.rows ensures id in q'.verdicts {
      DeleteKeepsOpen(q, c, id);
    }
  }

  lemma DeletedCard(rows: Rows, ids: set<TaskId>)
    ensures Deleted(rows, ids) + |DeleteIds(rows, ids)| == |rows|
  {
    var gone, kept := rows.Keys * ids, rows.Keys - ids;
    assert rows.Keys == gone + kept && gone !! kept;
    assert DeleteIds(rows, ids).Keys == kept;
  }

  lemma DeleteCount(q: Queue, c: ProcessId)
    requires CountInv(q)
    ensures CountInv(Apply(q, Delete(c)))
  {
    DeletedCard(q.rows, SelectionOf(q, c));
  }

  lemma DeleteWorkers(q: Queue, c: ProcessId)
    requires WorkersInv(q) && CleanersInv(q)
    ensures WorkersInv(Apply(q, Delete(c)))
  {
    var q' := Apply(q, Delete(c));
    forall id | id in q.rows && q.rows[id].status == Running ensures id in q'.rows {
      DeleteKeepsOpen(q, c, id);
    }
    WorkersFrame(q, q');
  }

  lemma DeleteCleaners(q: Queue, c: ProcessId)
    requires CleanersInv(q)
    ensures CleanersInv(Apply(q, Delete(c)))
  {
    CleanersFrame(q, Apply(q, Delete(c)));
  }

  // ---- All steps ---------------------------------------------------------------------------------

  lemma ClaimForLedger(q: Queue, w: ProcessId, id: TaskId, q': Queue)
    requires Ledger(q) && q'.rows == ClaimFor(q, w, id).rows && q'.handed == ClaimFor(q, w, id).handed
    requires q'.submitted == q.submitted && q'.removed == q.removed && q'.verdicts == q.verdicts && q'.now == q.now
    ensures Ledger(q')
  {
    if Claimable(q.rows, id) { GrantLedger(q, w, id); }
    LedgerFrame(ClaimFor(q, w, id), q');
  }

  lemma SubmitLedger(q: Queue, id: TaskId, taskType: string, payload: Payload)
    requires Ledger(q) && id !in q.submitted
    ensures Ledger(Apply(q, Submit(id, taskType, payload)))
  {
    SubmitRows(q, id, taskType, payload);
    SubmitHanded(q, id, taskType, payload);
    SubmitVerdicts(q, id, taskType, payload);
    SubmitCount(q, id, taskType, payload);
  }

  lemma FinishLedger(q: Queue, w: ProcessId, id: TaskId, outcome: Outcome)
    requires Ledger(q) && id in q.rows && q.rows[id].status == Running
    ensures Ledger(Apply(q, Finish(w, id, outcome)))
  {
    FinishRows(q, w, id, outcome);
    FinishHanded(q, w, id, outcome);
    FinishVerdicts(q, w, id, outcome);
    FinishCount(q, w, id, outcome);
  }

  lemma DeleteLedger(q: Queue, c: ProcessId)
    requires Ledger(q) && CleanersInv(q)
    ensures Ledger(Apply(q, Delete(c)))
  {
    DeleteRows(q, c);
    DeleteHanded(q, c);
    DeleteVerdicts(q, c);
    DeleteCount(q, c);
  }

  lemma StepLedger(q: Queue, s: Step)
    requires Inv(q) && Enabled(q, s)
    ensures Ledger(Apply(q, s))
  {
    match s
    case Submit(id, taskType, payload) => SubmitLedger(q, id, taskType, payload);
    case TryClaim(w, id) => ClaimForLedger(q, w, id, Apply(q, s));
    case ClaimRaises(w, id, applied) =>
      if applied { ClaimForLedger(q, w, id, Apply(q, s)); } else { LedgerFrame(q, Apply(q, s)); }
    case Finish(w, id, outcome) =>
      HeldRuns(q, w, id);
      FinishLedger(q, w, id, outcome);
    case Delete(c) => DeleteLedger(q, c);
    case _ => LedgerFrame(q, Apply(q, s));
  }

  /** Steps that grant, load, finish or delete nothing. */
  predicate Quiet(s: Step) {
    !s.TryClaim? && !s.ClaimRaises? && !s.Load? && !s.Finish? && !s.Delete?
  }

  lemma QuietWorkers(q: Queue, s: Step)
    requires WorkersInv(q) && RowsInv(q) && Enabled(q, s) && Quiet(s)
    ensures WorkersInv(Apply(q, s))
  {
    WorkersFrame(q, Apply(q, s));
  }

  lemma ClaimRaisesWorkers(q: Queue, w: ProcessId, id: TaskId, applied: bool)
    requires WorkersInv(q)
    ensures WorkersInv(Apply(q, ClaimRaises(w, id, applied)))
  {
    if applied && Claimable(q.rows, id) { GrantWorkers(q, w, id); }
    WorkersFrame(if applied then ClaimFor(q, w, id) else q, Apply(q, ClaimRaises(w, id, applied)));
  }

  lemma StepWorkers(q: Queue, s: Step)
    requires Inv(q) && Enabled(q, s)
    ensures WorkersInv(Apply(q, s))
  {
    match s
    case TryClaim(w, id) =>
      ClaimForInv(q, w, id);
      TryClaimWorkers(q, w, id);
    case ClaimRaises(w, id, applied) => ClaimRaisesWorkers(q, w, id, applied);
    case Load(w, id) => LoadWorkers(q, w, id);
    case Finish(w, id, outcome) => FinishWorkers(q, w, id, outcome);
    case Delete(c) => DeleteWorkers(q, c);
    case _ => QuietWorkers(q, s);
  }

  /** No worker's step touches an expired row. */
  lemma RowsCleaners(q: Queue, s: Step)
    requires CleanersInv(q) && Enabled(q, s) && !s.Select? && !s.Delete? && !s.CleanerCrash?
    requires s.Finish? ==> s.id in q.rows && q.rows[s.id].status == Running
    ensures CleanersInv(Apply(q, s))
  {
    var q' := Apply(q, s);
    assert q'.cleaners == q.cleaners;
    forall id | id in q'.rows && id in q.submitted
      ensures id in q.rows && (IsExpired(q.rows[id], q.now) ==> IsExpired(q'.rows[id], q'.now))
    {
    }
    CleanersFrame(q, q');
  }

  lemma StepCleaners(q: Queue, s: Step)
    requires Inv(q) && Enabled(q, s)
    ensures CleanersInv(Apply(q, s))
  {
    match s
    case Select(c, ids) => SelectCleaners(q, c, ids);
    case Delete(c) => DeleteCleaners(q, c);
    case CleanerCrash(c) => CleanersFrame(q, Apply(q, s));
    case Finish(w, id, _) =>
      HeldRuns(q, w, id);
      RowsCleaners(q, s);
    case _ => RowsCleaners(q, s);
  }

  lemma StepInv(q: Queue, s: Step)
    requires Inv(q) && Enabled(q, s)
    ensures Inv(Apply(q, s))
  {
    StepLedger(q, s);
    StepWorkers(q, s);
    StepCleaners(q, s);
  }

  /** A worker may crash at any time; it forgets all it had in hand, and the database notices nothing. */
  lemma CrashMeaning(q: Queue, w: ProcessId)
    ensures Enabled(q, Crash(w))
    ensures var q' := Apply(q, Crash(w));
            WorkerOf(q', w) == Worker({}, {}, {}) && q' == q.(workers := q'.workers)
            && forall v :: v != w ==> WorkerOf(q', v) == WorkerOf(q, v)
  {
  }

  lemma InitialInv(now: Instant)
    ensures Inv(Initial(now))
  {
    var q := Initial(now);
    assert forall w :: WorkerInv(q, w);
  }

  lemma {:induction false} RunInv(q: Queue, steps: seq<Step>)
    requires Inv(q) && Legal(q, steps)
    ensures Inv(Run(q, steps))
    decreases |steps|
  {
    if steps != [] {
      StepInv(q, steps[0]);
      RunInv(Apply(q, steps[0]), steps[1..]);
    }
  }
}

/** The invariant of the whole service holds in every reachable world. */
module SummarySystemInv {
  import opened Common
  import opened Clients
  import opened TaskRows
  import opened SummaryPolicy
  import opened SummarySystem
  import L = LocalStore
  import T = TieredCache
  import Q = TaskQueue
  import QI = TaskQueueInv
  import TL = TaskLifecycle

  // ---- Framing -----------------------------------------------------------------------------------

  /** Nothing a client's invariants speak about changed, except that refreshes may have ended. */
  ghost predicate SameClients(w: World, w': World) {
    && w'.clients == w.clients && w'.emails == w.emails && w'.records == w.records
    && w'.regenerated == w.regenerated
    && w.queue.now <= w'.queue.now
    && (forall id :: id in w.target ==> id in w'.target && w'.target[id] == w.target[id])
    && (forall c :: c in w'.inflight ==> c in w.inflight && w'.inflight[c] == w.inflight[c])
    && (forall c :: c in w'.inflight ==>
          w.inflight[c].task in w.phases ==>
            w.inflight[c].task in w'.phases && w'.phases[w.inflight[c].task] == w.phases[w.inflight[c].task])
    && (forall id :: id in w.target ==> (IsDone(w', id) <==> IsDone(w, id)))
  }

  lemma LastTaskKnown(w: World, c: ClientId)
    requires EmailsInv(w) && LastTask(w.emails, c).Some?
    ensures LastTask(w.emails, c).value in w.target
    ensures w.target[LastTask(w.emails, c).value].clientId == c
  {
    var i := LastTaskEmail(w.emails, c);
  }

  lemma {:induction false} LastTaskEmail(emails: seq<Email>, c: ClientId) returns (i: nat)
    requires LastTask(emails, c).Some?
    ensures i < |emails| && emails[i].clientId == c && emails[i].task == LastTask(emails, c).value
  {
    if emails[|emails| - 1].clientId == c {
      i := |emails| - 1;
    } else {
      i := LastTaskEmail(emails[..|emails| - 1], c);
    }
  }

  lemma ClientFrame(w: World, w': World, c: ClientId)
    requires SameClients(w, w') && EmailsInv(w)
    requires FlightInv(w, c) && Settled(w, c) && Amortised(w, c)
    ensures FlightInv(w', c) && Settled(w', c) && Amortised(w', c)
  {
    if LastTask(w.emails, c).Some? { LastTaskKnown(w, c); }
  }

  lemma ClientsFrame(w: World, w': World)
    requires SameClients(w, w') && EmailsInv(w) && ClientsInv(w)
    ensures ClientsInv(w')
  {
    forall c ensures FlightInv(w', c) && Settled(w', c) && Amortised(w', c) {
      ClientFrame(w, w', c);
    }
  }

  lemma EmailsFrame(w: World, w': World)
    requires EmailsInv(w) && RecordsInv(w)
    requires w'.clients == w.clients && w'.emails == w.emails && w'.records == w.records
    requires w.queue.now <= w'.queue.now
    requires forall id :: id in w.target ==> id in w'.target && w'.target[id] == w.target[id]
    ensures EmailsInv(w') && RecordsInv(w')
  {
  }

  /** Nothing the cached summaries depend on changed. */
  ghost predicate SameCache(w: World, w': World) {
    && w'.tier == w.tier && w'.latest == w.latest
    && w'.clients == w.clients && w'.records == w.records
    && w'.cached == w.cached && w'.unpublished == w.unpublished
  }

  lemma CacheFrame(w: World, w': World)
    requires CacheInv(w) && SameCache(w, w')
    ensures CacheInv(w')
  {
    forall c ensures CachedRight(w', c) {
      assert CachedRight(w, c);
    }
  }

  /** A refresh that is torn stays torn. */
  lemma TornKept(w: World, w': World, c: ClientId)
    requires WasTorn(w, c)
    requires forall id :: id in w.target ==> id in w'.target && w'.target[id] == w.target[id]
    requires forall id :: id in w.phases && w.phases[id] == Torn ==> id in w'.phases && w'.phases[id] == Torn
    ensures WasTorn(w', c)
  {
    var id :| id in w.phases && w.phases[id] == Torn && id in w.target && w.target[id].clientId == c;
    assert w'.phases[id] == Torn && w'.target[id].clientId == c;
  }

  /** Steps that publish nothing new: what was unpublished has still a reason to be. */
  lemma PublishFrame(w: World, w': World)
    requires PublishInv(w) && w'.unpublished <= w.unpublished && w.records.Keys <= w'.records.Keys
    requires forall id :: id in w.target ==> id in w'.target && w'.target[id] == w.target[id]
    requires forall id :: id in w.phases && w.phases[id] == Torn ==> id in w'.phases && w'.phases[id] == Torn
    requires forall c :: c in w'.unpublished && MidCommit(w, c) ==> MidCommit(w', c)
    ensures PublishInv(w')
  {
    forall c | c in w'.unpublished ensures c in w'.records && (MidCommit(w', c) || WasTorn(w', c)) {
      assert c in w.unpublished && c in w.records;
      if !MidCommit(w, c) { TornKept(w, w', c); }
    }
  }

  /** The world apart from its cache and its queue. */
  ghost predicate RestInv(w: World) {
    TasksInv(w) && EmailsInv(w) && RecordsInv(w) && ClientsInv(w)
  }

  lemma RestFrame(w: World, w': World)
    requires RestInv(w)
    requires w' == w.(tier := w'.tier, latest := w'.latest, cached := w'.cached, unpublished := w'.unpublished)
    ensures RestInv(w')
  {
    assert TasksInv(w');
    EmailsFrame(w, w');
    ClientsFrame(w, w');
  }

  // ---- Queue steps -------------------------------------------------------------------------------

  lemma QueueRowsKept(q: Q.Queue, s: Q.Step, id: TaskId)
    requires Q.Inv(q) && Q.Enabled(q, s) && !s.Submit? && id in Q.Apply(q, s).rows
    ensures id in q.rows && Q.Apply(q, s).rows[id].payload == q.rows[id].payload
  {
    TL.StepLater(q, s);
    if id !in q.rows {
      QI.StepInv(q, s);
      assert false;
    }
    assert TL.RowLater(q.rows[id], q.now, id, Q.Apply(q, s));
  }

  lemma QueueVerdicts(w: World, s: Q.Step)
    requires TasksInv(w) && Enabled(w, Process(s))
    ensures var w' := AfterProcess(w, s);
            forall id :: id in w'.queue.verdicts && w'.queue.verdicts[id] ==> IsDone(w', id)
  {
    var w' := AfterProcess(w, s);
    forall id | id in w'.queue.verdicts && w'.queue.verdicts[id] ensures IsDone(w', id) {
      assert IsDone(w, id);
    }
  }

  lemma QueueTasks(w: World, s: Q.Step)
    requires Q.Inv(w.queue) && TasksInv(w) && Enabled(w, Process(s))
    ensures TasksInv(AfterProcess(w, s))
  {
    var w' := AfterProcess(w, s);
    assert w'.queue.submitted == w.queue.submitted;
    forall id | id in w'.queue.rows ensures id in w'.target && w'.queue.rows[id].payload == w'.target[id] {
      QueueRowsKept(w.queue, s, id);
    }
    assert forall id :: id in w'.queue.verdicts && w'.queue.verdicts[id] ==> IsDone(w', id) by {
      QueueVerdicts(w, s);
    }
  }

  lemma QueueClock(q: Q.Queue, s: Q.Step)
    ensures q.now <= Q.Apply(q, s).now
  {
  }

  lemma ProcessPhases(w: World, s: Q.Step)
    ensures var w' := AfterProcess(w, s);
            && (forall c :: c in w'.inflight ==> c in w.inflight && w'.inflight[c] == w.inflight[c])
            && (forall c :: c in w'.inflight ==> w'.inflight[c].task !in Lost(w, s))
            && (forall id :: IsDone(w', id) <==> IsDone(w, id))
            && (forall id :: id in w.phases && id !in Lost(w, s) ==> id in w'.phases && w'.phases[id] == w.phases[id])
  {
  }

  lemma ProcessSameClients(w: World, s: Q.Step)
    ensures SameClients(w, AfterProcess(w, s))
  {
    QueueClock(w.queue, s);
    ProcessPhases(w, s);
  }

  /** A refresh that ends between its commit and the invalidation is recorded as torn. */
  lemma ProcessPublish(w: World, s: Q.Step)
    requires PublishInv(w) && ClientsInv(w)
    ensures PublishInv(AfterProcess(w, s))
  {
    var w' := AfterProcess(w, s);
    forall c | c in w'.unpublished ensures c in w'.records && (MidCommit(w', c) || WasTorn(w', c)) {
      if MidCommit(w, c) {
        assert FlightInv(w, c);
        var id := w.inflight[c].task;
        if id in Lost(w, s) { assert w'.phases[id] == Torn && w'.target[id].clientId == c; }
      } else {
        TornKept(w, w', c);
      }
    }
  }

  lemma ProcessInv(w: World, s: Q.Step)
    requires Inv(w) && Enabled(w, Process(s))
    ensures Inv(AfterProcess(w, s))
  {
    var w' := AfterProcess(w, s);
    assert Q.Inv(w'.queue) by { QI.StepInv(w.queue, s); }
    assert TasksInv(w') by { QueueTasks(w, s); }
    ProcessSameClients(w, s);
    EmailsFrame(w, w');
    ClientsFrame(w, w');
    assert CacheInv(w') by { CacheFrame(w, w'); }
    assert PublishInv(w') by { ProcessPublish(w, s); }
  }

  // ---- Submissions -------------------------------------------------------------------------------

  lemma SubmitTasks(w: World, id: TaskId, payload: Payload)
    requires Q.HandedInv(w.queue) && Q.VerdictsInv(w.queue) && TasksInv(w) && id !in w.queue.submitted
    ensures TasksInv(AfterSubmit(w, id, payload))
  {
    var w' := AfterSubmit(w, id, payload);
    assert w'.queue.rows == w.queue.rows[id := NewTask(TASK_TYPE, payload, w.queue.now)];
    assert w'.queue.verdicts == w.queue.verdicts && w'.phases == w.phases;
  }

  lemma SubmitSameClients(w: World, id: TaskId, payload: Payload)
    requires TasksInv(w) && id !in w.queue.submitted
    ensures SameClients(w, AfterSubmit(w, id, payload))
  {
  }

  lemma EnqueueInv(w: World, id: TaskId, payload: Payload)
    requires Inv(w) && id !in w.queue.submitted
    ensures Inv(AfterSubmit(w, id, payload))
  {
    var w' := AfterSubmit(w, id, payload);
    assert Q.Inv(w'.queue) by { QI.StepInv(w.queue, Q.Submit(id, TASK_TYPE, payload)); }
    assert TasksInv(w') by {
      assert Q.Ledger(w.queue);
      SubmitTasks(w, id, payload);
    }
    SubmitSameClients(w, id, payload);
    EmailsFrame(w, w');
    ClientsFrame(w, w');
    CacheFrame(w, w');
    PublishFrame(w, w');
  }

  /** Adding an email whose task is new and not yet done. */
  ghost predicate NewEmail(w: World, w': World, e: Email) {
    && w' == w.(emails := w.emails + [e])
    && e.clientId in w.clients && e.capturedAt <= w.queue.now
    && e.task in w.target && w.target[e.task] == CapturePayload(e.clientId, e.sentAt)
    && e.task !in w.phases
  }

  lemma CountsAppend(emails: seq<Email>, e: Email, c: ClientId, t: Instant)
    ensures CountCapturedBy(emails + [e], c, t) ==
            CountCapturedBy(emails, c, t) + if e.clientId == c && e.capturedAt <= t then 1 else 0
    ensures CountCapturedAfter(emails + [e], c, t) ==
            CountCapturedAfter(emails, c, t) + if e.clientId == c && e.capturedAt > t then 1 else 0
    ensures LastTask(emails + [e], c) == if e.clientId == c then Some(e.task) else LastTask(emails, c)
  {
    assert (emails + [e])[..|emails + [e]| - 1] == emails;
  }

  lemma NewEmailFlight(w: World, w': World, e: Email, c: ClientId)
    requires NewEmail(w, w', e) && FlightInv(w, c)
    ensures FlightInv(w', c)
  {
    if c in w.inflight && c in w.records {
      CountsAppend(w.emails, e, c, w.records[c].refreshedAt);
      CountsAppend(w.emails, e, c, w.inflight[c].began);
    }
  }

  lemma NewEmailSettled(w: World, w': World, e: Email, c: ClientId)
    requires NewEmail(w, w', e) && FlightInv(w, c) && Settled(w, c)
    ensures Settled(w', c)
  {
    CountsAppend(w.emails, e, c, if c in w.records then w.records[c].refreshedAt else 0);
    if e.clientId != c && c in w.inflight {
      assert AllCapturedBy(w.emails, c, w.inflight[c].began) ==> AllCapturedBy(w'.emails, c, w.inflight[c].began);
    }
  }

  lemma NewEmailInv(w: World, w': World, e: Email)
    requires RestInv(w) && NewEmail(w, w', e)
    ensures RestInv(w')
  {
    forall c ensures FlightInv(w', c) && Settled(w', c) && Amortised(w', c) {
      assert FlightInv(w, c) && Settled(w, c) && Amortised(w, c);
      NewEmailFlight(w, w', e, c);
      NewEmailSettled(w, w', e, c);
      if c in w.records { CountsAppend(w.emails, e, c, w.records[c].refreshedAt); }
    }
    assert EmailsInv(w');
    assert TasksInv(w');
  }

  lemma CaptureInv(w: World, c: ClientId, sentAt: Instant, capturedAt: Instant, id: TaskId)
    requires Inv(w) && Enabled(w, Capture(c, sentAt, capturedAt, id))
    ensures Inv(Apply(w, Capture(c, sentAt, capturedAt, id)))
  {
    var mid := AfterSubmit(w, id, CapturePayload(c, sentAt));
    EnqueueInv(w, id, CapturePayload(c, sentAt));
    var e := Email(c, sentAt, capturedAt, id);
    var w' := Apply(w, Capture(c, sentAt, capturedAt, id));
    assert NewEmail(mid, w', e);
    NewEmailInv(mid, w', e);
    CacheFrame(mid, w');
    PublishFrame(mid, w');
  }
}

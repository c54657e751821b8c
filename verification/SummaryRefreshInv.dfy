/** The four steps of a refresh keep the invariant of the service. */
module SummaryRefreshInv {
  import opened Common
  import opened Clients
  import opened TaskRows
  import opened SummaryPolicy
  import opened SummarySystem
  import opened SummarySystemInv
  import L = LocalStore
  import T = TieredCache
  import Q = TaskQueue

  // ---- The decision ------------------------------------------------------------------------------

  ghost predicate UpToDate(w: World, c: ClientId) {
    c in w.records && CountCapturedAfter(w.emails, c, w.records[c].refreshedAt) < 5
  }

  /** Giving a task its first phase; it is done only if its client is up to date and not in flight. */
  lemma MarkedClient(w: World, id: TaskId, phase: Phase, c: ClientId)
    requires EmailsInv(w) && id in w.target && id !in w.phases
    requires phase == Done ==> w.target[id].clientId !in w.inflight && UpToDate(w, w.target[id].clientId)
    requires FlightInv(w, c) && Settled(w, c)
    ensures FlightInv(Marked(w, id, phase), c) && Settled(Marked(w, id, phase), c)
  {
    if LastTask(w.emails, c).Some? { LastTaskKnown(w, c); }
  }

  lemma MarkedInv(w: World, id: TaskId, phase: Phase)
    requires RestInv(w) && id in w.target && id !in w.phases
    requires phase == Done ==> w.target[id].clientId !in w.inflight && UpToDate(w, w.target[id].clientId)
    ensures RestInv(Marked(w, id, phase))
  {
    var w' := Marked(w, id, phase);
    forall t | t in w'.queue.verdicts && w'.queue.verdicts[t] ensures IsDone(w', t) {
      assert IsDone(w, t);
    }
    forall c ensures FlightInv(w', c) && Settled(w', c) && Amortised(w', c) {
      assert FlightInv(w, c) && Settled(w, c) && Amortised(w, c);
      MarkedClient(w, id, phase, c);
    }
    EmailsFrame(w, w');
  }

  lemma AllCapturedByNow(w: World, c: ClientId)
    requires EmailsInv(w)
    ensures AllCapturedBy(w.emails, c, w.queue.now)
  {
  }

  lemma LaunchedInv(w: World, c: ClientId, r: Refresh)
    requires RestInv(w) && FlightInv(Launched(w, c, r), c) && r.began == w.queue.now
    ensures RestInv(Launched(w, c, r))
  {
    var w' := Launched(w, c, r);
    AllCapturedByNow(w, c);
    forall d ensures FlightInv(w', d) && Settled(w', d) && Amortised(w', d) {
      assert FlightInv(w, d) && Settled(w, d) && Amortised(w, d);
    }
    EmailsFrame(w, w');
  }

  /** A regeneration that was not forced has five emails between the old record and now. */
  lemma FiveNewEmails(w: World, c: ClientId)
    requires EmailsInv(w) && c in w.records
    requires CountCapturedAfter(w.emails, c, w.records[c].refreshedAt) >= MIN_NEW_EMAILS
    ensures CountCapturedBy(w.emails, c, w.records[c].refreshedAt) + MIN_NEW_EMAILS
            <= CountCapturedBy(w.emails, c, w.queue.now)
  {
    CountsAddUp(w.emails, c, w.records[c].refreshedAt);
    CountsAddUp(w.emails, c, w.queue.now);
    AllCapturedByNow(w, c);
    NoneCapturedAfter(w.emails, c, w.queue.now);
  }

  lemma RegenerateInv(w: World, id: TaskId, p: Payload, listed: seq<Email>)
    requires RestInv(w) && id in w.target && w.target[id] == p && id !in w.phases
    requires DecisionFor(w, p) == Regenerate(listed)
    ensures RestInv(AfterBegin(w, id, p))
  {
    var c := p.clientId;
    var mid := Marked(w, id, Generating);
    MarkedInv(w, id, Generating);
    if c in w.records && !p.force { FiveNewEmails(w, c); }
    var r := Refresh(id, w.queue.now, |listed|, c in w.records, p.force);
    assert FlightInv(Launched(mid, c, r), c);
    LaunchedInv(mid, c, r);
  }

  lemma DecidedInv(w: World, id: TaskId, p: Payload)
    requires RestInv(w) && id in w.target && w.target[id] == p && id !in w.phases && p.clientId !in w.inflight
    ensures RestInv(AfterBegin(w, id, p))
  {
    match DecisionFor(w, p)
    case Skip => MarkedInv(w, id, Done);
    case Regenerate(listed) => RegenerateInv(w, id, p, listed);
    case _ => MarkedInv(w, id, Refused);
  }

  lemma BeginFrame(w: World, id: TaskId, p: Payload, decision: Decision)
    ensures var w' := AfterDecision(w, id, p, decision);
            && w'.queue == w.queue && w'.tier == w.tier && w'.latest == w.latest
            && w'.clients == w.clients && w'.records == w.records && w'.target == w.target
            && w'.cached == w.cached && w'.unpublished == w.unpublished
            && (forall t :: t in w.phases && t != id ==> t in w'.phases && w'.phases[t] == w.phases[t])
            && (forall c :: c in w.inflight && c != p.clientId ==> c in w'.inflight && w'.inflight[c] == w.inflight[c])
  {
  }

  lemma BeginInv(w: World, p: Q.ProcessId, id: TaskId)
    requires Inv(w) && Enabled(w, Begin(p, id))
    ensures Inv(Apply(w, Begin(p, id)))
  {
    var payload := w.queue.rows[id].payload;
    var w' := AfterBegin(w, id, payload);
    assert RestInv(w') by { DecidedInv(w, id, payload); }
    BeginFrame(w, id, payload, DecisionFor(w, payload));
    assert CacheInv(w') by { CacheFrame(w, w'); }
    assert PublishInv(w') by { PublishFrame(w, w'); }
    assert Apply(w, Begin(p, id)) == w';
  }

  // ---- The commit of the record --------------------------------------------------------------------

  /** The refresh of `c` is in flight in this phase, for this task. */
  ghost predicate Flying(w: World, c: ClientId, id: TaskId, phase: Phase) {
    && RestInv(w) && c in w.inflight && w.inflight[c].task == id
    && id in w.phases && w.phases[id] == phase
  }

  lemma FlyingTask(w: World, p: Q.ProcessId, id: TaskId, phase: Phase)
    requires RestInv(w) && InPhase(w, p, id, phase)
    ensures Flying(w, w.queue.rows[id].payload.clientId, id, phase)
  {
  }

  /** A step of one refresh moves the phase of no other. */
  lemma OtherTask(w: World, c: ClientId, id: TaskId, phase: Phase, d: ClientId)
    requires Flying(w, c, id, phase) && d != c
    ensures d in w.inflight ==> w.inflight[d].task != id
    ensures LastTask(w.emails, d) != Some(id)
  {
    assert FlightInv(w, c) && FlightInv(w, d);
    if LastTask(w.emails, d).Some? { LastTaskKnown(w, d); }
  }

  lemma StoreFrame(w: World, id: TaskId, c: ClientId, report: Report, stamp: Instant)
    requires Flying(w, c, id, Generating) && stamp <= w.queue.now
    ensures var w' := AfterStore(w, id, c, report, stamp); TasksInv(w') && EmailsInv(w') && RecordsInv(w')
  {
    var w' := AfterStore(w, id, c, report, stamp);
    assert FlightInv(w, c);
    forall t | t in w'.queue.verdicts && w'.queue.verdicts[t] ensures IsDone(w', t) {
      assert IsDone(w, t);
    }
  }

  lemma StoreSettled(w: World, id: TaskId, c: ClientId, report: Report, stamp: Instant)
    requires Flying(w, c, id, Generating) && w.inflight[c].began <= stamp
    ensures Settled(AfterStore(w, id, c, report, stamp), c)
  {
    var w' := AfterStore(w, id, c, report, stamp);
    assert Settled(w, c);
    var last := LastTask(w.emails, c);
    if last.Some? && IsDone(w', last.value) {
      assert AllCapturedBy(w.emails, c, w.inflight[c].began);
      NoneCapturedAfter(w.emails, c, stamp);
    }
  }

  lemma StoreAmortised(w: World, id: TaskId, c: ClientId, report: Report, stamp: Instant)
    requires Flying(w, c, id, Generating) && w.inflight[c].began <= stamp
    ensures Amortised(AfterStore(w, id, c, report, stamp), c)
  {
    assert FlightInv(w, c) && Amortised(w, c);
    var began := w.inflight[c].began;
    CountByMonotone(w.emails, c, began, stamp);
    if c in w.records {
      CountByMonotone(w.emails, c, w.records[c].refreshedAt, began);
    }
  }

  lemma StoreOther(w: World, id: TaskId, c: ClientId, report: Report, stamp: Instant, d: ClientId)
    requires Flying(w, c, id, Generating) && d != c
    ensures var w' := AfterStore(w, id, c, report, stamp);
            FlightInv(w', d) && Settled(w', d) && Amortised(w', d)
  {
    OtherTask(w, c, id, Generating, d);
    assert FlightInv(w, d) && Settled(w, d) && Amortised(w, d);
  }

  lemma StoreClients(w: World, id: TaskId, c: ClientId, report: Report, stamp: Instant)
    requires Flying(w, c, id, Generating) && w.inflight[c].began <= stamp
    ensures ClientsInv(AfterStore(w, id, c, report, stamp))
  {
    var w' := AfterStore(w, id, c, report, stamp);
    assert FlightInv(w, c);
    forall d ensures FlightInv(w', d) && Settled(w', d) && Amortised(w', d) {
      if d == c {
        StoreSettled(w, id, c, report, stamp);
        StoreAmortised(w, id, c, report, stamp);
      } else {
        StoreOther(w, id, c, report, stamp, d);
      }
    }
  }

  /** What was cached for the client is now a response of an earlier record. */
  lemma StoreCache(w: World, id: TaskId, c: ClientId, report: Report, stamp: Instant)
    requires Flying(w, c, id, Generating) && w.inflight[c].began <= stamp && CacheInv(w)
    ensures CacheInv(AfterStore(w, id, c, report, stamp))
  {
    var w' := AfterStore(w, id, c, report, stamp);
    assert FlightInv(w, c);
    forall d ensures CachedRight(w', d) {
      assert CachedRight(w, d);
    }
  }

  lemma StorePublish(w: World, id: TaskId, c: ClientId, report: Report, stamp: Instant)
    requires Flying(w, c, id, Generating) && PublishInv(w)
    ensures PublishInv(AfterStore(w, id, c, report, stamp))
  {
    var w' := AfterStore(w, id, c, report, stamp);
    forall d | d in w'.unpublished ensures d in w'.records && (MidCommit(w', d) || WasTorn(w', d)) {
      if d != c {
        OtherTask(w, c, id, Generating, d);
        if !MidCommit(w, d) { TornKept(w, w', d); }
      }
    }
  }

  lemma StoreInv(w: World, p: Q.ProcessId, id: TaskId, report: Report, stamp: Instant)
    requires Inv(w) && Enabled(w, Store(p, id, report, stamp))
    ensures Inv(Apply(w, Store(p, id, report, stamp)))
  {
    var c := w.queue.rows[id].payload.clientId;
    FlyingTask(w, p, id, Generating);
    StoreFrame(w, id, c, report, stamp);
    StoreClients(w, id, c, report, stamp);
    StoreCache(w, id, c, report, stamp);
    StorePublish(w, id, c, report, stamp);
    assert Apply(w, Store(p, id, report, stamp)) == AfterStore(w, id, c, report, stamp);
  }

  // ---- The invalidation ------------------------------------------------------------------------------

  /** Dropping a cached response keeps what the others show, and leaves nothing unpublished about it. */
  lemma InvalidateKeeps(w: World, c: ClientId, reply: T.Reply)
    requires CacheInv(w) && PublishInv(w)
    ensures CacheInv(AfterInvalidate(w, c, reply)) && PublishInv(AfterInvalidate(w, c, reply))
  {
    var w' := AfterInvalidate(w, c, reply);
    T.InvalidateCoherent(w.tier, w.latest, L.Summary(c), reply);
    forall d ensures CachedRight(w', d) {
      assert CachedRight(w, d);
    }
    PublishFrame(w, w');
  }

  /** A refresh passes to its next phase, its record stored. */
  lemma PassedOn(w: World, id: TaskId, c: ClientId)
    requires Flying(w, c, id, Stored)
    ensures RestInv(Marked(w, id, Retracted))
  {
    var w' := Marked(w, id, Retracted);
    forall t | t in w'.queue.verdicts && w'.queue.verdicts[t] ensures IsDone(w', t) {
      assert IsDone(w, t);
    }
    forall d ensures FlightInv(w', d) && Settled(w', d) && Amortised(w', d) {
      assert FlightInv(w, d) && Settled(w, d) && Amortised(w, d);
      if d != c { OtherTask(w, c, id, Stored, d); }
    }
    EmailsFrame(w, w');
  }

  lemma RetractPublish(w: World, id: TaskId, c: ClientId, reply: T.Reply)
    requires Flying(w, c, id, Stored) && PublishInv(w)
    ensures PublishInv(AfterInvalidate(Marked(w, id, Retracted), c, reply))
  {
    var w' := AfterInvalidate(Marked(w, id, Retracted), c, reply);
    forall d | d in w'.unpublished && MidCommit(w, d) ensures MidCommit(w', d) {
      OtherTask(w, c, id, Stored, d);
    }
    PublishFrame(w, w');
  }

  lemma RetractCache(w: World, id: TaskId, c: ClientId, reply: T.Reply)
    requires CacheInv(w)
    ensures CacheInv(AfterInvalidate(Marked(w, id, Retracted), c, reply))
  {
    var w' := AfterInvalidate(Marked(w, id, Retracted), c, reply);
    T.InvalidateCoherent(w.tier, w.latest, L.Summary(c), reply);
    forall d ensures CachedRight(w', d) {
      assert CachedRight(w, d);
    }
  }

  lemma RetractInv(w: World, p: Q.ProcessId, id: TaskId, reply: T.Reply)
    requires Inv(w) && Enabled(w, Retract(p, id, reply))
    ensures Inv(Apply(w, Retract(p, id, reply)))
  {
    var c := w.queue.rows[id].payload.clientId;
    var w' := AfterInvalidate(Marked(w, id, Retracted), c, reply);
    FlyingTask(w, p, id, Stored);
    PassedOn(w, id, c);
    RestFrame(Marked(w, id, Retracted), w');
    RetractCache(w, id, c, reply);
    RetractPublish(w, id, c, reply);
    assert Apply(w, Retract(p, id, reply)) == w';
  }

  // ---- The set of the new response ---------------------------------------------------------------------

  /** Caching the response rebuilt from the current record. */
  lemma CachingKeeps(w: World, tier: T.Tier<Cached>, c: ClientId)
    requires c in w.clients && c in w.records && CacheInv(w) && PublishInv(w)
    requires T.Coherent(tier, AfterCaching(w, tier, c).latest)
    ensures CacheInv(AfterCaching(w, tier, c)) && PublishInv(AfterCaching(w, tier, c))
  {
    var w' := AfterCaching(w, tier, c);
    forall d ensures CachedRight(w', d) {
      assert CachedRight(w, d);
    }
    PublishFrame(w, w');
  }

  /** The refresh is over: its task is done, and the client is up to date if it was the latest. */
  lemma LandedRest(w: World, id: TaskId, c: ClientId)
    requires Flying(w, c, id, Retracted)
    ensures RestInv(Landed(w, id, c))
  {
    var w' := Landed(w, id, c);
    forall t | t in w'.queue.verdicts && w'.queue.verdicts[t] ensures IsDone(w', t) {
      assert IsDone(w, t);
    }
    forall d ensures FlightInv(w', d) && Settled(w', d) && Amortised(w', d) {
      assert FlightInv(w, d) && Amortised(w, d);
      if d == c { LandedSettled(w, id, c); } else { LandedOther(w, id, c, d); }
    }
    EmailsFrame(w, w');
  }

  lemma LandedSettled(w: World, id: TaskId, c: ClientId)
    requires Flying(w, c, id, Retracted)
    ensures Settled(Landed(w, id, c), c)
  {
    assert FlightInv(w, c) && Settled(w, c);
    if LastTask(w.emails, c) == Some(id) {
      NoneCapturedAfter(w.emails, c, w.records[c].refreshedAt);
    }
  }

  lemma LandedOther(w: World, id: TaskId, c: ClientId, d: ClientId)
    requires Flying(w, c, id, Retracted) && d != c
    ensures FlightInv(Landed(w, id, c), d) && Settled(Landed(w, id, c), d)
  {
    assert FlightInv(w, d) && Settled(w, d);
    OtherTask(w, c, id, Retracted, d);
  }

  lemma LandedCache(w: World, id: TaskId, c: ClientId)
    requires Flying(w, c, id, Retracted) && CacheInv(w) && PublishInv(w)
    ensures CacheInv(Landed(w, id, c)) && PublishInv(Landed(w, id, c))
  {
    var w' := Landed(w, id, c);
    CacheFrame(w, w');
    forall d | d in w'.unpublished && MidCommit(w, d) ensures MidCommit(w', d) {
      if d != c { OtherTask(w, c, id, Retracted, d); }
    }
    PublishFrame(w, w');
  }

  lemma PublishKeeps(w: World, id: TaskId, c: ClientId, reply: T.Reply)
    requires Flying(w, c, id, Retracted) && CacheInv(w) && PublishInv(w) && c in w.clients && c in w.records
    ensures RestInv(AfterPublish(w, id, c, reply)) && CacheInv(AfterPublish(w, id, c, reply))
    ensures PublishInv(AfterPublish(w, id, c, reply))
  {
    var mid, tier := Landed(w, id, c), PublishTier(w, c, reply);
    LandedRest(w, id, c);
    LandedCache(w, id, c);
    T.SetCoherent(w.tier, w.latest, L.Summary(c), SummaryPayload(CurrentResponse(w.clients[c], w.records[c])),
                  w.queue.now, w.cap, reply);
    CachingKeeps(mid, tier, c);
    RestFrame(mid, AfterCaching(mid, tier, c));
  }

  lemma PublishingInv(w: World, p: Q.ProcessId, id: TaskId, reply: T.Reply)
    requires Inv(w) && Enabled(w, Publish(p, id, reply))
    ensures Inv(Apply(w, Publish(p, id, reply)))
  {
    var c := w.queue.rows[id].payload.clientId;
    FlyingTask(w, p, id, Retracted);
    assert FlightInv(w, c);
    PublishKeeps(w, id, c, reply);
    assert Apply(w, Publish(p, id, reply)) == AfterPublish(w, id, c, reply);
  }
}

/**
What the service guarantees in every reachable world: summaries are up to date once the refresh of
the latest email succeeded, reads are as if there were no cache, and regenerations are paid for.
*/
module SummaryGuarantees {
  import opened Common
  import opened Clients
  import opened TaskRows
  import opened SummaryPolicy
  import opened SummarySystem
  import opened SummarySystemInv
  import opened SummaryRefreshInv
  import L = LocalStore
  import T = TieredCache
  import Q = TaskQueue
  import QI = TaskQueueInv

  // ---- Steps on the cache ------------------------------------------------------------------------

  /** Only the cache and its history changed. */
  ghost predicate OnlyCache(w: World, w': World) {
    w' == w.(tier := w'.tier, latest := w'.latest, cached := w'.cached, unpublished := w'.unpublished)
  }

  lemma ReadHit(w: World, c: ClientId, net: Replies)
    requires CacheInv(w) && PublishInv(w) && c in w.clients
    requires T.Coherent(ReadTier(w.tier, w.clients, w.records, c, w.queue.now, w.ttl, w.cap, net), w.latest)
    requires AfterRead(w, c, net) == w.(tier := AfterRead(w, c, net).tier)
    ensures CacheInv(AfterRead(w, c, net)) && PublishInv(AfterRead(w, c, net))
  {
    var w' := AfterRead(w, c, net);
    forall d ensures CachedRight(w', d) {
      assert CachedRight(w, d);
    }
    PublishFrame(w, w');
  }

  lemma ReadInv(w: World, c: ClientId, net: Replies)
    requires CacheInv(w) && PublishInv(w) && c in w.clients
    ensures CacheInv(AfterRead(w, c, net)) && PublishInv(AfterRead(w, c, net))
    ensures OnlyCache(w, AfterRead(w, c, net))
  {
    var key := L.Summary(c);
    var found := T.FoundJson(w.tier, key, w.queue.now, w.ttl, net.first);
    var looked := T.GetJson(w.tier, key, w.queue.now, w.ttl, net.first);
    T.GetCoherent(w.tier, w.latest, key, w.queue.now, w.ttl, net.first);
    if (found.Some? && found.value.SummaryPayload?) || c !in w.records {
      ReadHit(w, c, net);
    } else {
      var tier := ReadTier(w.tier, w.clients, w.records, c, w.queue.now, w.ttl, w.cap, net);
      T.SetCoherent(looked, w.latest, key, SummaryPayload(CurrentResponse(w.clients[c], w.records[c])), w.queue.now,
                    w.cap, net.second);
      CachingKeeps(w, tier, c);
    }
  }

  /** Steps that move the cache but no summary in it. */
  lemma SummariesKept(w: World, w': World)
    requires CacheInv(w) && PublishInv(w) && T.Coherent(w'.tier, w'.latest)
    requires w' == w.(tier := w'.tier, latest := w'.latest)
    requires forall c :: L.Summary(c) in w'.latest ==>
               L.Summary(c) in w.latest && w'.latest[L.Summary(c)] == w.latest[L.Summary(c)]
    ensures CacheInv(w') && PublishInv(w')
  {
    forall c ensures CachedRight(w', c) {
      assert CachedRight(w, c);
    }
    PublishFrame(w, w');
  }

  lemma CacheStepInv(w: World, e: Event)
    requires CacheInv(w) && PublishInv(w) && Enabled(w, e)
    requires e.Read? || e.InvalidateSummary? || e.SearchGet? || e.SearchSet? || e.ServerForgets?
    ensures CacheInv(Apply(w, e)) && PublishInv(Apply(w, e)) && OnlyCache(w, Apply(w, e))
  {
    match e
    case Read(c, net) => ReadInv(w, c, net);
    case InvalidateSummary(c, reply) => InvalidateKeeps(w, c, reply);
    case SearchGet(digest, searchTtl, reply) =>
      T.GetCoherent(w.tier, w.latest, L.Search(digest), w.queue.now, searchTtl, reply);
      SummariesKept(w, Apply(w, e));
    case SearchSet(digest, json, reply) =>
      T.SetCoherent(w.tier, w.latest, L.Search(digest), SearchPayload(json), w.queue.now, w.cap, reply);
      SummariesKept(w, Apply(w, e));
    case ServerForgets(keys) => SummariesKept(w, Apply(w, e));
  }

  // ---- All steps -----------------------------------------------------------------------------------

  lemma StepInv(w: World, e: Event)
    requires Inv(w) && Enabled(w, e)
    ensures Inv(Apply(w, e))
  {
    match e
    case Process(s) => ProcessInv(w, s);
    case Capture(c, sentAt, capturedAt, id) => CaptureInv(w, c, sentAt, capturedAt, id);
    case Enqueue(id, payload) => EnqueueInv(w, id, payload);
    case Begin(p, id) => BeginInv(w, p, id);
    case Store(p, id, report, stamp) => StoreInv(w, p, id, report, stamp);
    case Retract(p, id, reply) => RetractInv(w, p, id, reply);
    case Publish(p, id, reply) => PublishingInv(w, p, id, reply);
    case _ =>
      CacheStepInv(w, e);
      RestFrame(w, Apply(w, e));
  }

  /** The clients table starts with each client under its own id; no emails, tasks or records yet. */
  ghost predicate Boot(w: World) {
    exists clients: map<ClientId, Client>, now: Instant, redis: bool, ttl: int, cap: nat ::
      (forall c :: c in clients ==> clients[c].id == c) && w == Initial(clients, now, redis, ttl, cap)
  }

  lemma BootInv(w: World)
    requires Boot(w)
    ensures Inv(w)
  {
    QI.InitialInv(w.queue.now);
    assert T.Coherent(w.tier, w.latest);
    assert forall c :: CachedRight(w, c);
  }

  lemma {:induction false} RunInv(w: World, events: seq<Event>)
    requires Inv(w) && Legal(w, events)
    ensures Inv(Run(w, events))
    decreases |events|
  {
    if events != [] {
      StepInv(w, events[0]);
      RunInv(Apply(w, events[0]), events[1..]);
    }
  }

  ghost predicate Reachable(w: World) {
    exists start: World, events: seq<Event> :: Boot(start) && Legal(start, events) && w == Run(start, events)
  }

  lemma {:induction false} RunOneMore(w: World, events: seq<Event>, e: Event)
    requires Legal(w, events) && Enabled(Run(w, events), e)
    ensures Legal(w, events + [e]) && Run(w, events + [e]) == Apply(Run(w, events), e)
    decreases |events|
  {
    if events == [] {
      assert [] + [e] == [e] && [e][1..] == [];
      assert Run(Apply(w, e), []) == Apply(w, e);
    } else {
      RunOneMore(Apply(w, events[0]), events[1..], e);
      assert (events + [e])[1..] == events[1..] + [e];
    }
  }

  lemma ReachableStep(w: World, e: Event)
    requires Reachable(w) && Enabled(w, e)
    ensures Reachable(Apply(w, e))
  {
    var start, events :| Boot(start) && Legal(start, events) && w == Run(start, events);
    RunOneMore(start, events, e);
  }

  /** Runs stay among the reachable worlds. */
  lemma {:induction false} RunReachable(w: World, events: seq<Event>)
    requires Reachable(w) && Legal(w, events)
    ensures Reachable(Run(w, events))
    decreases |events|
  {
    if events != [] {
      ReachableStep(w, events[0]);
      RunReachable(Apply(w, events[0]), events[1..]);
    }
  }

  /** The invariant holds in every reachable world. */
  lemma ReachableInv(w: World)
    requires Reachable(w)
    ensures Inv(w)
  {
    var start, events :| Boot(start) && Legal(start, events) && w == Run(start, events);
    BootInv(start);
    RunInv(start, events);
  }

  // ---- The guarantees ------------------------------------------------------------------------------

  ghost predicate SucceededTask(w: World, id: TaskId) {
    id in w.queue.verdicts && w.queue.verdicts[id]
  }

  ghost predicate FailedTask(w: World, id: TaskId) {
    id in w.queue.verdicts && !w.queue.verdicts[id]
  }

  /**
  Once the refresh task of a client's most recent email was marked succeeded, the client has a
  record and fewer than five emails captured after it, whatever forced or ranged refreshes,
  crashes, failures and other captures were mixed in, and however they interleaved.
  */
  lemma LatestEmailRefreshed(w: World, c: ClientId)
    requires Reachable(w)
    requires LastTask(w.emails, c).Some? && SucceededTask(w, LastTask(w.emails, c).value)
    ensures UpToDate(w, c)
  {
    ReachableInv(w);
    assert Settled(w, c);
    assert IsDone(w, LastTask(w.emails, c).value);
  }

  ghost predicate AllCapturesSucceeded(w: World) {
    forall i :: 0 <= i < |w.emails| ==> SucceededTask(w, w.emails[i].task)
  }

  lemma {:induction false} HasLastTask(emails: seq<Email>, i: nat)
    requires i < |emails|
    ensures LastTask(emails, emails[i].clientId).Some?
  {
    if i < |emails| - 1 { HasLastTask(emails[..|emails| - 1], i); }
  }

  /** When every capture task succeeded, every client with an email is up to date. */
  lemma QuiescentUpToDate(w: World, i: nat)
    requires Reachable(w) && AllCapturesSucceeded(w) && i < |w.emails|
    ensures UpToDate(w, w.emails[i].clientId)
  {
    var c := w.emails[i].clientId;
    HasLastTask(w.emails, i);
    var last := LastTaskEmail(w.emails, c);
    LatestEmailRefreshed(w, c);
  }

  /** No captured email is without its refresh task: it is in the table as captured, or was finished. */
  lemma CapturedEmailHasTask(w: World, i: nat)
    requires Reachable(w) && i < |w.emails|
    ensures var e := w.emails[i];
            if e.task in w.queue.rows then w.queue.rows[e.task].payload == Payload(e.clientId, None, Some(e.sentAt), false)
            else e.task in w.queue.verdicts
  {
    ReachableInv(w);
    assert Q.Ledger(w.queue);
  }

  /**
  The refresh of a captured email, begun when its client has a record and fewer than five emails captured
  after it, is done at once: it asks for no report and leaves everything else as it is.
  */
  lemma CaptureTaskSkips(w: World, i: nat, p: Q.ProcessId)
    requires Reachable(w) && i < |w.emails| && Enabled(w, Begin(p, w.emails[i].task))
    requires var e := w.emails[i];
             e.sentAt >= 0 && e.clientId in w.records
             && |Newer(w.emails, e.clientId, w.records[e.clientId].refreshedAt)| < 5
    ensures Apply(w, Begin(p, w.emails[i].task)) == w.(phases := w.phases[w.emails[i].task := Done])
  {
    var e := w.emails[i];
    CapturedEmailHasTask(w, i);
    ReachableInv(w);
    assert e.clientId in w.clients;
    CaptureDecidesSkip(w.clients, w.emails, w.records, i, w.queue.now);
    var skip := AfterDecision(w, e.task, w.queue.rows[e.task].payload, Skip);
    assert Apply(w, Begin(p, e.task)) == skip;
  }

  /** Nothing is pending or running. */
  ghost predicate Quiescent(w: World) {
    forall id :: id in w.queue.rows ==> Terminal(w.queue.rows[id])
  }

  /** With nothing pending or running, a client is behind only if the task of its latest email failed. */
  lemma QuiescentOutcome(w: World, i: nat)
    requires Reachable(w) && Quiescent(w) && i < |w.emails|
    ensures var c := w.emails[i].clientId;
            && LastTask(w.emails, c).Some?
            && (UpToDate(w, c) || FailedTask(w, LastTask(w.emails, c).value))
  {
    var c := w.emails[i].clientId;
    HasLastTask(w.emails, i);
    var last := LastTaskEmail(w.emails, c);
    CapturedEmailHasTask(w, last);
    ReachableInv(w);
    assert Q.Ledger(w.queue);
    if SucceededTask(w, w.emails[last].task) { LatestEmailRefreshed(w, c); }
  }

  /** What a read should return: the response rebuilt from the current record. */
  function Rebuilt(w: World, c: ClientId): ReadOutcome
    requires c in w.clients
  {
    if c in w.records then Shown(CurrentResponse(w.clients[c], w.records[c])) else NoSummary
  }

  function ReadNow(w: World, c: ClientId, ttl: int, net: Replies): ReadOutcome {
    ReadOf(w.tier, w.clients, w.records, c, w.queue.now, ttl, net)
  }

  predicate Hits(w: World, c: ClientId, ttl: int, net: Replies) {
    T.FoundJson(w.tier, L.Summary(c), w.queue.now, ttl, net.first).Some?
  }

  /**
  The cache is invisible: a read in any reachable world, whatever Redis answers, returns exactly the
  response rebuilt from the current record, and "not found" exactly when there is no record, unless
  the client's record was committed and nothing done to the cached response since.
  */
  lemma CacheTransparent(w: World, c: ClientId, ttl: int, net: Replies)
    requires Reachable(w) && c in w.clients && c !in w.unpublished
    ensures ReadNow(w, c, ttl, net) == Rebuilt(w, c)
  {
    ReachableInv(w);
    assert CachedRight(w, c);
    T.GetCoherent(w.tier, w.latest, L.Summary(c), w.queue.now, ttl, net.first);
  }

  /**
  What a reader of any client sees, published or not: on a hit the response built from the record
  behind the cached one, which is no later than the current one; otherwise the rebuilt response. So
  the read is right exactly when it misses or nothing was stored since that record.
  */
  lemma ReadShows(w: World, c: ClientId, ttl: int, net: Replies)
    requires Reachable(w) && c in w.clients
    ensures Hits(w, c, ttl, net) ==>
              && c in w.records && c in w.cached && w.cached[c].refreshedAt <= w.records[c].refreshedAt
              && ReadNow(w, c, ttl, net) == Shown(CurrentResponse(w.clients[c], w.cached[c]))
    ensures ReadNow(w, c, ttl, net) == Rebuilt(w, c) <==>
            !Hits(w, c, ttl, net) || (c in w.cached && c in w.records && w.cached[c] == w.records[c])
  {
    ReachableInv(w);
    assert CachedRight(w, c);
    T.GetCoherent(w.tier, w.latest, L.Summary(c), w.queue.now, ttl, net.first);
  }

  /** Nothing but a refresh between its commit and its invalidation, or one that ended there, leaves a client unpublished. */
  lemma UnpublishedMeans(w: World, c: ClientId)
    requires Reachable(w) && c in w.unpublished
    ensures c in w.records && (MidCommit(w, c) || WasTorn(w, c))
  {
    ReachableInv(w);
  }

  /** Where no refresh of the client is or ended between those two steps, reads are right. */
  lemma UntornIsTransparent(w: World, c: ClientId, ttl: int, net: Replies)
    requires Reachable(w) && c in w.clients && !MidCommit(w, c) && !WasTorn(w, c)
    ensures ReadNow(w, c, ttl, net) == Rebuilt(w, c)
  {
    if c in w.unpublished { UnpublishedMeans(w, c); }
    CacheTransparent(w, c, ttl, net);
  }

  /** Only a commit makes a client unpublished. */
  lemma OnlyStoresUnpublish(w: World, e: Event)
    requires Enabled(w, e) && !e.Store?
    ensures Apply(w, e).unpublished <= w.unpublished
  {
    match e
    case Begin(_, id) => BeginFrame(w, id, w.queue.rows[id].payload, DecisionFor(w, w.queue.rows[id].payload));
    case Read(d, net) => ReadUnpublished(w, d, net);
    case _ =>
  }

  lemma ReadUnpublished(w: World, c: ClientId, net: Replies)
    requires c in w.clients
    ensures AfterRead(w, c, net).unpublished <= w.unpublished
    ensures c in w.records && CacheInv(w) && !Hits(w, c, w.ttl, net) ==> c !in AfterRead(w, c, net).unpublished
  {
  }

  /** The invalidation of a refresh, any other one, and a read that rebuilds each make it published again. */
  lemma Republishes(w: World, e: Event, c: ClientId)
    requires Reachable(w) && Enabled(w, e)
    requires match e
             case Retract(_, id, _) => w.queue.rows[id].payload.clientId == c
             case InvalidateSummary(d, _) => d == c
             case Read(d, net) => d == c && !Hits(w, c, w.ttl, net)
             case _ => false
    ensures c !in Apply(w, e).unpublished
  {
    if e.Read? {
      ReachableInv(w);
      ReadUnpublished(w, c, e.net);
      if c in w.unpublished { UnpublishedMeans(w, c); }
    }
  }

  /**
  What the guarantee rests on. A response built from an earlier state of the client and its record,
  and stored only after they changed (by a read that overlaps a refresh, or before a rename), is
  what later reads show, exactly unless nothing in it changed or the lookup misses it.
  */
  lemma LateStoreGoesStale(t: T.Tier<Cached>, c: ClientId, was: Client, loaded: Record,
                           clients: map<ClientId, Client>, records: map<ClientId, Record>,
                           now: Instant, cap: nat, sent: T.Reply, lost: set<L.Key>, now': Instant, ttl: int, net: Replies)
    requires c in clients && c in records && was.id == clients[c].id
    requires L.Valid(t.local) && (T.Live(t) ==> t.local == L.Empty())
    ensures var key := L.Summary(c);
            var t' := T.Forget(T.SetJson(t, key, SummaryPayload(CurrentResponse(was, loaded)), now, cap, sent), lost);
            var found := if T.Live(t) && sent == T.Done then net.first == T.Done && key !in lost
                         else cap > 0 && now' - now <= ttl;
            ReadOf(t', clients, records, c, now', ttl, net) == Shown(CurrentResponse(clients[c], records[c])) <==>
            !found || (was.name == clients[c].name && was.firmId == clients[c].firmId && loaded == records[c])
  {
    T.SetThenGet(t, L.Summary(c), SummaryPayload(CurrentResponse(was, loaded)), now, cap, sent, lost,
                 now', ttl, net.first);
  }

  lemma {:induction false} CountByAtMost(emails: seq<Email>, c: ClientId, t: Instant)
    ensures CountCapturedBy(emails, c, t) <= CountOf(emails, c)
  {
    CountsAddUp(emails, c, t);
  }

  /** Every non-forced regeneration of an existing record is paid for by five captured emails. */
  lemma RegenerationsPaid(w: World, c: ClientId)
    requires Reachable(w)
    ensures 5 * Regenerations(w, c) <= CountOf(w.emails, c)
  {
    ReachableInv(w);
    assert Amortised(w, c);
    if c in w.records { CountByAtMost(w.emails, c, w.records[c].refreshedAt); }
  }

  /**
  What is counted: each commit that replaces a record although its task did not ask to force it, and
  nothing else.
  */
  lemma StoreCounted(w: World, p: Q.ProcessId, id: TaskId, report: Report, stamp: Instant, c: ClientId)
    requires Inv(w) && Enabled(w, Store(p, id, report, stamp))
    ensures var payload := w.queue.rows[id].payload;
            Regenerations(Apply(w, Store(p, id, report, stamp)), c) ==
            Regenerations(w, c) + if payload.clientId == c && c in w.records && !payload.force then 1 else 0
  {
    assert FlightInv(w, w.queue.rows[id].payload.clientId);
  }

  lemma OthersUncounted(w: World, e: Event, c: ClientId)
    requires Enabled(w, e) && !e.Store?
    ensures Regenerations(Apply(w, e), c) == Regenerations(w, c)
  {
    match e
    case Begin(_, id) => BeginUncounted(w, id, w.queue.rows[id].payload, DecisionFor(w, w.queue.rows[id].payload));
    case _ =>
  }

  lemma BeginUncounted(w: World, id: TaskId, p: Payload, decision: Decision)
    ensures AfterDecision(w, id, p, decision).regenerated == w.regenerated
  {
  }

  /** `c` keeps its record or has a later one. */
  ghost predicate RecordLater(w: World, w': World, c: ClientId) {
    c in w.records ==> c in w'.records && w.records[c].refreshedAt <= w'.records[c].refreshedAt
  }

  lemma OnlyStoresChangeRecords(w: World, e: Event)
    requires Inv(w) && Enabled(w, e) && !e.Store?
    ensures Apply(w, e).records == w.records
  {
    match e
    case Begin(_, id) =>
      BeginFrame(w, id, w.queue.rows[id].payload, DecisionFor(w, w.queue.rows[id].payload));
    case Read(c, net) => ReadInv(w, c, net);
    case Publish(_, id, reply) =>
      assert FlightInv(w, w.queue.rows[id].payload.clientId);
      PublishRecords(w, id, w.queue.rows[id].payload.clientId, reply);
    case _ =>
  }

  lemma PublishRecords(w: World, id: TaskId, c: ClientId, reply: T.Reply)
    requires c in w.clients && c in w.records
    ensures AfterPublish(w, id, c, reply).records == w.records
  {
  }

  lemma StoreRecordLater(w: World, p: Q.ProcessId, id: TaskId, report: Report, stamp: Instant, c: ClientId)
    requires RestInv(w) && Enabled(w, Store(p, id, report, stamp))
    ensures RecordLater(w, Apply(w, Store(p, id, report, stamp)), c)
  {
    assert FlightInv(w, w.queue.rows[id].payload.clientId);
  }

  lemma StepRecordLater(w: World, e: Event, c: ClientId)
    requires Inv(w) && Enabled(w, e)
    ensures RecordLater(w, Apply(w, e), c)
  {
    if e.Store? {
      StoreRecordLater(w, e.worker, e.id, e.report, e.stamp, c);
    } else {
      OnlyStoresChangeRecords(w, e);
    }
  }

  /** No failure, crash or refused refresh ever loses a record, and no refresh sets one back. */
  lemma {:induction false} RunRecordLater(w: World, events: seq<Event>, c: ClientId)
    requires Inv(w) && Legal(w, events)
    ensures RecordLater(w, Run(w, events), c)
    decreases |events|
  {
    if events != [] {
      StepInv(w, events[0]);
      StepRecordLater(w, events[0], c);
      RunRecordLater(Apply(w, events[0]), events[1..], c);
    }
  }
}

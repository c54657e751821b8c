/**
The whole service as one transition system: captures commit an email and its refresh task together,
the queue hands tasks to workers, a worker decides and generates, reads go through the cache. Queue
steps, captures, refreshes of different clients and reads interleave freely. A refresh takes four
steps, its decision, the commit of the record, the invalidation of the cached response and the set of
the new one; between any two of them its worker may crash or the refresh may raise. Refreshes of one
client do not overlap.
*/
module SummarySystem {
  import opened Common
  import opened Clients
  import opened TaskRows
  import opened SummaryPolicy
  import L = LocalStore
  import T = TieredCache
  import Q = TaskQueue

  /**
  How far the refresh of a task has come. `Torn` is a refresh that ended after its record was
  committed and before the cached response was invalidated; `Aborted` one that ended elsewhere.
  */
  datatype Phase = Refused | Generating | Stored | Retracted | Done | Aborted | Torn

  /** A refresh that regenerates, from its decision, taken at `began`, to its last step. */
  datatype Refresh = Refresh(task: TaskId, began: Instant, listed: nat, existing: bool, forced: bool)

  datatype World = World(
    queue: Q.Queue,
    clients: map<ClientId, Client>, emails: seq<Email>, records: map<ClientId, Record>,
    inflight: map<ClientId, Refresh>, phases: map<TaskId, Phase>,
    tier: T.Tier<Cached>, ttl: int, cap: nat,
    // History: the payload of each submitted task, the latest set of each cache key with no
    // invalidation after it, the record each client's latest cached response was built from, the
    // clients whose record was committed with nothing done to the cached response since, and the
    // non-forced regenerations of an existing record.
    target: map<TaskId, Payload>,
    latest: map<L.Key, L.Entry<Cached>>,
    cached: map<ClientId, Record>,
    unpublished: set<ClientId>,
    regenerated: map<ClientId, nat>)

  datatype Event =
    | Process(step: Q.Step)
    | Capture(c: ClientId, sentAt: Instant, capturedAt: Instant, id: TaskId)
    | Enqueue(id: TaskId, payload: Payload)
    | Begin(worker: Q.ProcessId, id: TaskId)
    | Store(worker: Q.ProcessId, id: TaskId, report: Report, stamp: Instant)
    | Retract(worker: Q.ProcessId, id: TaskId, reply: T.Reply)
    | Publish(worker: Q.ProcessId, id: TaskId, reply: T.Reply)
    | Read(c: ClientId, net: Replies)
    | InvalidateSummary(c: ClientId, reply: T.Reply)
    | SearchGet(digest: string, searchTtl: int, reply: T.Reply)
    | SearchSet(digest: string, json: string, reply: T.Reply)
    | ServerForgets(keys: set<L.Key>)

  const TASK_TYPE := "summarize_client"

  function CapturePayload(c: ClientId, sentAt: Instant): Payload {
    Payload(c, None, Some(sentAt), false)
  }

  function Regenerations(w: World, c: ClientId): nat {
    if c in w.regenerated then w.regenerated[c] else 0
  }

  function DecisionFor(w: World, p: Payload): Decision {
    Decide(w.clients, w.emails, w.records, p.clientId, p.startDate, p.endDate, p.force, w.queue.now)
  }

  /** The tasks whose execution a process step ends. */
  function Lost(w: World, s: Q.Step): set<TaskId> {
    match s
    case Crash(p) => Q.WorkerOf(w.queue, p).held
    case Abandon(_, id) => {id}
    case Finish(_, id, _) => {id}
    case _ => {}
  }

  function Ended(phase: Phase): Phase {
    match phase
    case Generating => Aborted
    case Stored => Torn
    case Retracted => Aborted
    case _ => phase
  }

  /** The worker executes the task, whose refresh is in flight and has come to this phase. */
  ghost predicate InPhase(w: World, p: Q.ProcessId, id: TaskId, phase: Phase) {
    && id in Q.WorkerOf(w.queue, p).held && id in w.queue.rows
    && id in w.phases && w.phases[id] == phase
    && var c := w.queue.rows[id].payload.clientId;
       c in w.inflight && w.inflight[c].task == id
  }

  ghost predicate Enabled(w: World, e: Event) {
    match e
    case Process(s) =>
      && Q.Enabled(w.queue, s) && !s.Submit?
      && (s.Finish? && s.outcome.Ok? ==> s.id in w.phases && w.phases[s.id] == Done)
    case Capture(c, _, capturedAt, id) =>
      c in w.clients && capturedAt <= w.queue.now && Q.Enabled(w.queue, Q.Submit(id, TASK_TYPE, CapturePayload(c, e.sentAt)))
    case Enqueue(id, payload) => Q.Enabled(w.queue, Q.Submit(id, TASK_TYPE, payload))
    case Begin(p, id) =>
      && id in Q.WorkerOf(w.queue, p).held && id in w.queue.rows && id !in w.phases
      && w.queue.rows[id].payload.clientId !in w.inflight
    case Store(p, id, _, stamp) =>
      InPhase(w, p, id, Generating) && w.inflight[w.queue.rows[id].payload.clientId].began <= stamp <= w.queue.now
    case Retract(p, id, _) => InPhase(w, p, id, Stored)
    case Publish(p, id, _) => InPhase(w, p, id, Retracted)
    case Read(c, _) => c in w.clients
    case InvalidateSummary(c, _) => true
    case SearchGet(_, _, _) => true
    case SearchSet(_, _, _) => true
    case ServerForgets(_) => true
  }

  function AfterProcess(w: World, s: Q.Step): World {
    var lost := Lost(w, s);
    w.(queue := Q.Apply(w.queue, s),
       inflight := map c | c in w.inflight && w.inflight[c].task !in lost :: w.inflight[c],
       phases := map id | id in w.phases :: if id in lost then Ended(w.phases[id]) else w.phases[id])
  }

  function AfterSubmit(w: World, id: TaskId, payload: Payload): World {
    w.(queue := Q.Apply(w.queue, Q.Submit(id, TASK_TYPE, payload)), target := w.target[id := payload])
  }

  function Marked(w: World, id: TaskId, phase: Phase): World {
    w.(phases := w.phases[id := phase])
  }

  function Launched(w: World, c: ClientId, refresh: Refresh): World {
    w.(inflight := w.inflight[c := refresh])
  }

  function AfterBegin(w: World, id: TaskId, p: Payload): World {
    AfterDecision(w, id, p, DecisionFor(w, p))
  }

  function AfterDecision(w: World, id: TaskId, p: Payload, decision: Decision): World {
    match decision
    case Skip => Marked(w, id, Done)
    case Regenerate(listed) =>
      Launched(Marked(w, id, Generating), p.clientId,
               Refresh(id, w.queue.now, |listed|, p.clientId in w.records, p.force))
    case _ => Marked(w, id, Refused)
  }

  /** Record and log row are committed; the cache is not touched yet. */
  function AfterStore(w: World, id: TaskId, c: ClientId, report: Report, stamp: Instant): World
    requires c in w.inflight
  {
    var r := w.inflight[c];
    Marked(w, id, Stored).(
      records := w.records[c := Record(report, r.listed, stamp)],
      unpublished := w.unpublished + {c},
      regenerated := w.regenerated[c := Regenerations(w, c) + if r.existing && !r.forced then 1 else 0])
  }

  function AfterInvalidate(w: World, c: ClientId, reply: T.Reply): World {
    w.(tier := T.Invalidate(w.tier, L.Summary(c), reply), latest := w.latest - {L.Summary(c)},
       unpublished := w.unpublished - {c})
  }

  /** The cache is given the response rebuilt from the current record. */
  function AfterCaching(w: World, tier: T.Tier<Cached>, c: ClientId): World
    requires c in w.clients && c in w.records
  {
    w.(tier := tier,
       latest := w.latest[L.Summary(c) := L.Entry(SummaryPayload(CurrentResponse(w.clients[c], w.records[c])), w.queue.now)],
       cached := w.cached[c := w.records[c]],
       unpublished := w.unpublished - {c})
  }

  function PublishTier(w: World, c: ClientId, reply: T.Reply): T.Tier<Cached>
    requires c in w.clients && c in w.records
  {
    T.SetJson(w.tier, L.Summary(c), SummaryPayload(CurrentResponse(w.clients[c], w.records[c])), w.queue.now, w.cap, reply)
  }

  function AfterPublish(w: World, id: TaskId, c: ClientId, reply: T.Reply): World
    requires c in w.clients && c in w.records
  {
    AfterCaching(Landed(w, id, c), PublishTier(w, c, reply), c)
  }

  /** The refresh of the client is over. */
  function Landed(w: World, id: TaskId, c: ClientId): World {
    Marked(w, id, Done).(inflight := w.inflight - {c})
  }

  function AfterRead(w: World, c: ClientId, net: Replies): World
    requires c in w.clients
  {
    var found := T.FoundJson(w.tier, L.Summary(c), w.queue.now, w.ttl, net.first);
    var tier := ReadTier(w.tier, w.clients, w.records, c, w.queue.now, w.ttl, w.cap, net);
    if (found.Some? && found.value.SummaryPayload?) || c !in w.records then w.(tier := tier)
    else AfterCaching(w, tier, c)
  }

  function Apply(w: World, e: Event): World {
    match e
    case Process(s) => AfterProcess(w, s)
    case Capture(c, sentAt, capturedAt, id) =>
      AfterSubmit(w, id, CapturePayload(c, sentAt)).(emails := w.emails + [Email(c, sentAt, capturedAt, id)])
    case Enqueue(id, payload) => AfterSubmit(w, id, payload)
    case Begin(_, id) => if id in w.queue.rows then AfterBegin(w, id, w.queue.rows[id].payload) else w
    case Store(_, id, report, stamp) =>
      if id in w.queue.rows && w.queue.rows[id].payload.clientId in w.inflight
      then AfterStore(w, id, w.queue.rows[id].payload.clientId, report, stamp) else w
    case Retract(_, id, reply) =>
      if id in w.queue.rows
      then AfterInvalidate(Marked(w, id, Retracted), w.queue.rows[id].payload.clientId, reply) else w
    case Publish(_, id, reply) =>
      if id in w.queue.rows && w.queue.rows[id].payload.clientId in w.clients && w.queue.rows[id].payload.clientId in w.records
      then AfterPublish(w, id, w.queue.rows[id].payload.clientId, reply) else w
    case Read(c, net) => if c in w.clients then AfterRead(w, c, net) else w
    case InvalidateSummary(c, reply) => AfterInvalidate(w, c, reply)
    case SearchGet(digest, searchTtl, reply) =>
      w.(tier := T.GetJson(w.tier, L.Search(digest), w.queue.now, searchTtl, reply))
    case SearchSet(digest, json, reply) =>
      w.(tier := T.SetJson(w.tier, L.Search(digest), SearchPayload(json), w.queue.now, w.cap, reply),
         latest := w.latest[L.Search(digest) := L.Entry(SearchPayload(json), w.queue.now)])
    case ServerForgets(keys) => w.(tier := T.Forget(w.tier, keys))
  }

  function Initial(clients: map<ClientId, Client>, now: Instant, redis: bool, ttl: int, cap: nat): World {
    World(Q.Initial(now), clients, [], map[], map[], map[], T.Fresh(redis), ttl, cap, map[], map[], map[], {}, map[])
  }

  ghost predicate Legal(w: World, events: seq<Event>)
    decreases |events|
  {
    events != [] ==> Enabled(w, events[0]) && Legal(Apply(w, events[0]), events[1..])
  }

  function Run(w: World, events: seq<Event>): World
    decreases |events|
  {
    if events == [] then w else Run(Apply(w, events[0]), events[1..])
  }

  // ---- The invariant ---------------------------------------------------------------------------

  /** The refresh task of the client's most recently captured email. */
  function LastTask(emails: seq<Email>, c: ClientId): Option<TaskId> {
    if emails == [] then None
    else if emails[|emails| - 1].clientId == c then Some(emails[|emails| - 1].task)
    else LastTask(emails[..|emails| - 1], c)
  }

  predicate IsDone(w: World, id: TaskId) {
    id in w.phases && w.phases[id] == Done
  }

  ghost predicate TasksInv(w: World) {
    && w.target.Keys == w.queue.submitted
    && (forall id :: id in w.queue.rows ==> id in w.target && w.queue.rows[id].payload == w.target[id])
    && w.phases.Keys <= w.queue.submitted
    && (forall id :: id in w.queue.verdicts && w.queue.verdicts[id] ==> IsDone(w, id))
  }

  ghost predicate EmailsInv(w: World) {
    && (forall c :: c in w.clients ==> w.clients[c].id == c)
    && (forall i :: 0 <= i < |w.emails| ==>
          var e := w.emails[i];
          && e.clientId in w.clients && e.capturedAt <= w.queue.now
          && e.task in w.target && w.target[e.task] == CapturePayload(e.clientId, e.sentAt))
  }

  ghost predicate RecordsInv(w: World) {
    forall c :: c in w.records ==> c in w.clients && w.records[c].refreshedAt <= w.queue.now
  }

  /**
  A refresh that generates still sees the record it decided on and the five emails it counted; one
  that has stored its record left it no older than its decision.
  */
  ghost predicate FlightInv(w: World, c: ClientId) {
    c in w.inflight ==>
      var r := w.inflight[c];
      && c in w.clients && r.began <= w.queue.now
      && r.task in w.target && w.target[r.task].clientId == c && r.forced == w.target[r.task].force && r.task in w.phases
      && match w.phases[r.task]
         case Generating =>
           && (r.existing <==> c in w.records)
           && (r.existing ==> w.records[c].refreshedAt <= r.began)
           && (r.existing && !r.forced ==>
                 CountCapturedBy(w.emails, c, w.records[c].refreshedAt) + MIN_NEW_EMAILS <= CountCapturedBy(w.emails, c, r.began))
         case Stored => c in w.records && r.began <= w.records[c].refreshedAt
         case Retracted => c in w.records && r.began <= w.records[c].refreshedAt
         case _ => false
  }

  /**
  Once the refresh of the client's most recent email is done, the record is there and up to date
  but for fewer than five emails, and any refresh still in flight began after all captures.
  */
  ghost predicate Settled(w: World, c: ClientId) {
    match LastTask(w.emails, c)
    case None => true
    case Some(t) =>
      && (IsDone(w, t) ==>
            && c in w.records
            && CountCapturedAfter(w.emails, c, w.records[c].refreshedAt) < MIN_NEW_EMAILS)
      && (c in w.inflight && (IsDone(w, t) || w.inflight[c].task == t) ==>
            AllCapturedBy(w.emails, c, w.inflight[c].began))
  }

  /** Each non-forced regeneration consumed five emails of its own. */
  ghost predicate Amortised(w: World, c: ClientId) {
    if c in w.records then
      MIN_NEW_EMAILS * Regenerations(w, c) <= CountCapturedBy(w.emails, c, w.records[c].refreshedAt)
    else Regenerations(w, c) == 0
  }

  /**
  What the cache may return for a summary is the response built from a record of the client no later
  than the current one, and from the current one unless that was stored and not published.
  */
  ghost predicate CachedRight(w: World, c: ClientId) {
    L.Summary(c) in w.latest ==>
      && c in w.clients && c in w.records && c in w.cached
      && w.latest[L.Summary(c)].payload == SummaryPayload(CurrentResponse(w.clients[c], w.cached[c]))
      && w.cached[c].refreshedAt <= w.records[c].refreshedAt
      && (c !in w.unpublished ==> w.cached[c] == w.records[c])
  }

  ghost predicate CacheInv(w: World) {
    T.Coherent(w.tier, w.latest) && forall c :: CachedRight(w, c)
  }

  /** The client's refresh has committed its record and not yet invalidated the cached response. */
  ghost predicate MidCommit(w: World, c: ClientId) {
    c in w.inflight && w.inflight[c].task in w.phases && w.phases[w.inflight[c].task] == Stored
  }

  /** A refresh of the client ended between those two steps. */
  ghost predicate WasTorn(w: World, c: ClientId) {
    exists id :: id in w.phases && w.phases[id] == Torn && id in w.target && w.target[id].clientId == c
  }

  ghost predicate PublishInv(w: World) {
    forall c :: c in w.unpublished ==> c in w.records && (MidCommit(w, c) || WasTorn(w, c))
  }

  ghost predicate ClientsInv(w: World) {
    forall c :: FlightInv(w, c) && Settled(w, c) && Amortised(w, c)
  }

  ghost predicate Inv(w: World) {
    Q.Inv(w.queue) && TasksInv(w) && EmailsInv(w) && RecordsInv(w) && ClientsInv(w) && CacheInv(w) && PublishInv(w)
  }
}

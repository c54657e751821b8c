/**
app/services/summaries.py over the tables and the cache, updated in place, and its refresh as a run of
the system. The language model is a parameter: the report it returns, or nothing when the call fails.
*/
module SummaryService {
  import opened Common
  import opened Clients
  import opened LocalStore
  import opened TieredCache
  import opened SummaryPolicy
  import R = TaskRows
  import Q = TaskQueue
  import S = SummarySystem
  import G = SummaryGuarantees

  /** A row of summarization_logs. */
  datatype LogRow = LogRow(
    clientId: ClientId, emailCount: nat, tokenIn: nat, tokenOut: nat, startedAt: Instant, completedAt: Instant)

  /** What the clock shows at the decision, the model call, the record, the log row and the cache. */
  datatype Times = Times(decided: Instant, started: Instant, stamped: Instant, logged: Instant, shared: Instant)

  /** How the steps after the decision go: the model's report, and whether the record reloads after the commit. */
  datatype Course = Course(llm: Option<Report>, reloaded: bool)

  const BAD_RANGE := "start_date must be before end_date"

  /** The tables the service reads and writes. */
  datatype Tables = Tables(clients: map<ClientId, Client>, emails: seq<Email>, records: map<ClientId, Record>, logs: seq<LogRow>)

  /** The parameters of a refresh request. */
  datatype Request = Request(clientId: ClientId, start: Option<Instant>, end: Option<Instant>, force: bool)

  function DecisionOn(t: Tables, q: Request, now: Instant): Decision {
    Decide(t.clients, t.emails, t.records, q.clientId, q.start, q.end, q.force, now)
  }

  /** The refresh gets as far as its commit. */
  predicate Commits(decision: Decision, course: Course) {
    decision.Regenerate? && course.llm.Some?
  }

  /** Record and log row are written together, or nothing is. */
  function TablesAfter(t: Tables, c: ClientId, decision: Decision, times: Times, course: Course): Tables {
    if Commits(decision, course) then
      var report, listed := course.llm.value, |decision.emails|;
      t.(records := t.records[c := Record(report, listed, times.stamped)],
         logs := t.logs + [LogRow(c, listed, report.tokenIn, report.tokenOut, times.started, times.logged)])
    else t
  }

  /** The cache of tables `t'`, the refresh of `c` having gone this way. */
  function TierAfter(tier: Tier<Cached>, t': Tables, c: ClientId, decision: Decision, times: Times, course: Course,
                     cap: nat, net: Replies): Tier<Cached> {
    if Commits(decision, course) && course.reloaded && c in t'.clients && c in t'.records
    then CommitTier(tier, c, CurrentResponse(t'.clients[c], t'.records[c]), times.shared, cap, net)
    else tier
  }

  /** The outcomes that leave everything as it was. */
  function Answer(t: Tables, q: Request, now: Instant): Result<Response> {
    match DecisionOn(t, q, now)
    case BadRange => Err(Unprocessable("start_date must be before end_date"))
    case NoClient => Err(NotFound)
    case NoEmails => Err(NotFound)
    case Skip =>
      if q.clientId in t.clients && q.clientId in t.records
      then Ok(ResponseFromRecord(t.clients[q.clientId], t.records[q.clientId], true, Some(SKIP_REASON)))
      else Err(NotFound)
    case Regenerate(_) => Err(ServerError)
  }

  class SummaryService {
    var clients: map<ClientId, Client>
    var emails: seq<Email>
    var records: map<ClientId, Record>
    var logs: seq<LogRow>
    const cache: JsonCache<Cached>
    const ttl: int

    ghost function State(): Tables
      reads this
    {
      Tables(clients, emails, records, logs)
    }

    ghost predicate Valid()
      reads this, cache
    {
      && cache.Consistent()
      && (forall c :: c in clients ==> clients[c].id == c)
      && records.Keys <= clients.Keys
    }

    constructor (cache: JsonCache<Cached>, ttl: int)
      requires cache.Consistent()
      ensures Valid() && this.cache == cache && this.ttl == ttl && State() == Tables(map[], [], map[], [])
    {
      this.cache, this.ttl := cache, ttl;
      clients, emails, records, logs := map[], [], map[], [];
    }

    method ReadCachedSummary(c: ClientId, now: Instant, net: Replies) returns (outcome: ReadOutcome)
      requires Valid()
      modifies cache
      ensures Valid()
      ensures outcome == old(ReadOf(cache.State(), clients, records, c, now, ttl, net))
      ensures cache.State() == old(ReadTier(cache.State(), clients, records, c, now, ttl, cache.maxItems, net))
    {
      var cached := cache.GetJsonCache(Summary(c), ttl, now, net.first);
      if cached.Some? && cached.value.SummaryPayload? {
        return Shown(cached.value.response);
      }
      if c !in records { return NoSummary; }
      var response := CurrentResponse(clients[c], records[c]);
      cache.SetJsonCache(Summary(c), SummaryPayload(response), now, net.second);
      outcome := Shown(response);
    }

    /** Nobody reads the cache, let alone fills it, before access to the client was checked. */
    method ReadAuthorizedSummary(user: User, c: ClientId, now: Instant, net: Replies) returns (r: Result<Response>)
      requires Valid()
      modifies cache
      ensures Valid()
      ensures c !in clients ==> r == Err(NotFound)
      ensures c in clients && user.role != Superuser && user.firmId != clients[c].firmId ==> r == Err(AccessDenied)
      ensures (r == Err(AccessDenied) || c !in clients) ==> cache.State() == old(cache.State())
      ensures c in clients && (user.role == Superuser || user.firmId == clients[c].firmId) ==>
                && r == (match old(ReadOf(cache.State(), clients, records, c, now, ttl, net))
                         case Shown(response) => Ok(response)
                         case NoSummary => Err(NotFound))
                && cache.State() == old(ReadTier(cache.State(), clients, records, c, now, ttl, cache.maxItems, net))
    {
      if c !in clients { return Err(NotFound); }
      if !MayAccess(user, clients[c]) { return Err(AccessDenied); }
      var outcome := ReadCachedSummary(c, now, net);
      r := match outcome case Shown(response) => Ok(response) case NoSummary => Err(NotFound);
    }

    /**
    A refresh that is refused, skipped or loses the model call changes neither tables nor cache; one
    whose record does not reload after the commit leaves the cache as it was, and fails.
    */
    method RefreshClientSummary(q: Request, times: Times, course: Course, net: Replies) returns (r: Result<Response>)
      requires Valid()
      modifies this`records, this`logs, cache
      ensures Valid()
      ensures State() == TablesAfter(old(State()), q.clientId, old(DecisionOn(State(), q, times.decided)), times, course)
      ensures cache.State() == TierAfter(old(cache.State()), State(), q.clientId, old(DecisionOn(State(), q, times.decided)),
                                         times, course, cache.maxItems, net)
      ensures if !Commits(old(DecisionOn(State(), q, times.decided)), course) then r == old(Answer(State(), q, times.decided))
              else if !course.reloaded then r == Err(ServerError)
              else q.clientId in clients && r == Ok(CurrentResponse(clients[q.clientId], records[q.clientId]))
      ensures old(DecisionOn(State(), q, times.decided)).Skip? ==>
                && q.clientId in clients && q.clientId in records
                && r == Ok(Response(q.clientId, clients[q.clientId].name, clients[q.clientId].firmId,
                                    records[q.clientId].refreshedAt, true,
                                    Some("Fewer than 5 new emails have arrived since last refresh"), None))
      ensures var decision := old(DecisionOn(State(), q, times.decided));
              decision.Regenerate? && course.llm.Some? ==>
                && var report, listed := course.llm.value, |decision.emails|;
                && records == old(records)[q.clientId := Record(report, listed, times.stamped)]
                && logs == old(logs) + [LogRow(q.clientId, listed, report.tokenIn, report.tokenOut, times.started, times.logged)]
                && (course.reloaded ==>
                      && q.clientId in clients
                      && r == Ok(Response(q.clientId, clients[q.clientId].name, clients[q.clientId].firmId, times.stamped,
                                          false, None, Some(ReportResult(report, listed, times.stamped)))))
    {
      var from, to := RangeStart(q.start), RangeEnd(q.end, times.decided);
      if from > to { return Err(Unprocessable(BAD_RANGE)); }
      if q.clientId !in clients { return Err(NotFound); }
      var client := clients[q.clientId];
      var listed := ListEmailsForSummary(emails, q.clientId, from, to);
      if listed == [] { return Err(NotFound); }
      if q.clientId in records && !q.force {
        var count := CountCapturedAfter(emails, q.clientId, records[q.clientId].refreshedAt);
        if count < MIN_NEW_EMAILS {
          return Ok(ResponseFromRecord(client, records[q.clientId], true, Some(SKIP_REASON)));
        }
      }
      if course.llm == None { return Err(ServerError); }
      var report := course.llm.value;
      records := records[q.clientId := Record(report, |listed|, times.stamped)];
      logs := logs + [LogRow(client.id, |listed|, report.tokenIn, report.tokenOut, times.started, times.logged)];
      if !course.reloaded { return Err(ServerError); }
      cache.InvalidateSummaryCache(q.clientId, net.first);
      var response := CurrentResponse(client, records[q.clientId]);
      cache.SetJsonCache(Summary(q.clientId), SummaryPayload(response), times.shared, net.second);
      r := Ok(response);
    }

    /**
    Refreshes exactly when there is no record or five new emails arrived, in which case the refresh
    never skips; otherwise only drops the cached summary.
    */
    method MaybeRefreshSummaryForNewEmail(c: ClientId, times: Times, course: Course, net: Replies)
      returns (refreshed: Option<Result<Response>>)
      requires Valid()
      modifies this`records, this`logs, cache
      ensures Valid()
      ensures var due := c !in old(records) || |Newer(emails, c, old(records)[c].refreshedAt)| >= 5;
              var q := Request(c, None, None, false);
              && (refreshed.Some? <==> due)
              && var decision := old(DecisionOn(State(), q, times.decided));
              && (due ==>
                    && decision != Skip
                    && State() == TablesAfter(old(State()), c, decision, times, course)
                    && cache.State() == TierAfter(old(cache.State()), State(), c, decision, times, course, cache.maxItems, net)
                    && (refreshed.value.Ok? ==>
                          && !refreshed.value.value.skipped
                          && c in records && records[c].refreshedAt == times.stamped && course.llm == Some(records[c].report)))
              && (!due ==>
                    State() == old(State()) && cache.State() == Invalidate(old(cache.State()), Summary(c), net.first))
    {
      var q := Request(c, None, None, false);
      if c in records { NewerCount(emails, c, records[c].refreshedAt); }
      if c !in records {
        var r := RefreshClientSummary(q, times, course, net);
        return Some(r);
      }
      var count := CountCapturedAfter(emails, c, records[c].refreshedAt);
      if count >= MIN_NEW_EMAILS {
        var r := RefreshClientSummary(q, times, course, net);
        return Some(r);
      }
      cache.InvalidateSummaryCache(c, net.first);
      refreshed := None;
    }
  }

  // ---- The refresh as a run of the system --------------------------------------------------------------

  function RequestOf(p: R.Payload): Request {
    Request(p.clientId, p.startDate, p.endDate, p.force)
  }

  function TablesOf(w: S.World, logs: seq<LogRow>): Tables {
    Tables(w.clients, w.emails, w.records, logs)
  }

  /** The worker holds the task, and may begin its refresh. */
  ghost predicate MayBegin(w: S.World, worker: Q.ProcessId, id: R.TaskId, times: Times) {
    && S.Enabled(w, S.Begin(worker, id)) && w.queue.rows[id].payload.clientId in w.clients
    && times.decided == w.queue.now && times.decided <= times.stamped <= times.shared
  }

  function Asking(worker: Q.ProcessId, id: R.TaskId, times: Times): seq<S.Event>
    requires times.decided <= times.stamped
  {
    [S.Begin(worker, id), S.Process(Q.Tick(times.stamped - times.decided))]
  }

  function UpToCommit(worker: Q.ProcessId, id: R.TaskId, times: Times, report: Report): seq<S.Event>
    requires times.decided <= times.stamped
  {
    Asking(worker, id, times) + [S.Store(worker, id, report, times.stamped)]
  }

  function Sharing(worker: Q.ProcessId, id: R.TaskId, times: Times, net: Replies): seq<S.Event>
    requires times.stamped <= times.shared
  {
    [S.Process(Q.Tick(times.shared - times.stamped)), S.Retract(worker, id, net.first), S.Publish(worker, id, net.second)]
  }

  /** The steps a refresh takes when nothing else happens in between. */
  function StepsOf(decision: Decision, worker: Q.ProcessId, id: R.TaskId, times: Times, course: Course, net: Replies)
    : seq<S.Event>
    requires times.decided <= times.stamped <= times.shared
  {
    var fails := S.Process(Q.Finish(worker, id, Q.Error));
    if !decision.Regenerate? then [S.Begin(worker, id)]
    else if course.llm == None then [S.Begin(worker, id), fails]
    else UpToCommit(worker, id, times, course.llm.value) + if course.reloaded then Sharing(worker, id, times, net) else [fails]
  }

  /** The tables a world has apart from the logs, which the system does not keep. */
  ghost predicate Holds(w: S.World, t: Tables) {
    w.clients == t.clients && w.emails == t.emails && w.records == t.records
  }

  /** The refresh of the task is in this phase, and the clock shows `now`. */
  ghost predicate At(w: S.World, worker: Q.ProcessId, id: R.TaskId, c: ClientId, phase: S.Phase, now: Instant) {
    S.InPhase(w, worker, id, phase) && w.queue.rows[id].payload.clientId == c && w.queue.now == now && c in w.clients
  }

  /** Nothing moved but the clock and the refresh of this task. */
  ghost predicate Aside(w: S.World, w': S.World, id: R.TaskId, c: ClientId) {
    && w'.queue == w.queue.(now := w'.queue.now) && w'.target == w.target
    && w'.phases.Keys == w.phases.Keys + {id}
    && w'.inflight.Keys + {c} == w.inflight.Keys + {c}
  }

  lemma AfterDecision(w: S.World, worker: Q.ProcessId, id: R.TaskId, times: Times, decision: Decision) returns (w': S.World)
    requires MayBegin(w, worker, id, times)
    ensures w' == S.AfterDecision(w, id, w.queue.rows[id].payload, decision)
    ensures w'.clients == w.clients && w'.emails == w.emails && w'.records == w.records
    ensures w'.tier == w.tier && w'.cap == w.cap && w'.queue == w.queue
    ensures var c := w.queue.rows[id].payload.clientId;
            decision.Regenerate? ==>
              && Aside(w, w', id, c)
              && At(w', worker, id, c, S.Generating, times.decided)
              && w'.inflight[c].listed == |decision.emails| && w'.inflight[c].began == times.decided
  {
    w' := S.AfterDecision(w, id, w.queue.rows[id].payload, decision);
  }

  /** The decision of the service is the decision of the system. */
  ghost predicate Decides(w: S.World, id: R.TaskId, times: Times, logs: seq<LogRow>, decision: Decision) {
    id in w.queue.rows && decision == DecisionOn(TablesOf(w, logs), RequestOf(w.queue.rows[id].payload), times.decided)
  }

  lemma SameDecision(w: S.World, id: R.TaskId, times: Times, logs: seq<LogRow>, decision: Decision)
    requires Decides(w, id, times, logs, decision) && times.decided == w.queue.now
    ensures decision == S.DecisionFor(w, w.queue.rows[id].payload)
  {
  }

  lemma AfterBegin(w: S.World, worker: Q.ProcessId, id: R.TaskId, times: Times, logs: seq<LogRow>, decision: Decision)
    returns (w': S.World)
    requires MayBegin(w, worker, id, times) && Decides(w, id, times, logs, decision)
    ensures w' == S.Apply(w, S.Begin(worker, id)) && Holds(w', TablesOf(w, logs)) && w'.tier == w.tier && w'.cap == w.cap
    ensures w'.queue == w.queue
    ensures var c := w.queue.rows[id].payload.clientId;
            decision.Regenerate? ==>
              && Aside(w, w', id, c)
              && At(w', worker, id, c, S.Generating, times.decided)
              && w'.inflight[c].listed == |decision.emails| && w'.inflight[c].began == times.decided
  {
    SameDecision(w, id, times, logs, decision);
    w' := AfterDecision(w, worker, id, times, decision);
  }

  lemma TickKeeps(w: S.World, worker: Q.ProcessId, id: R.TaskId, c: ClientId, phase: S.Phase, now: Instant, seconds: nat)
    returns (w': S.World)
    requires At(w, worker, id, c, phase, now)
    ensures w' == S.Apply(w, S.Process(Q.Tick(seconds))) && At(w', worker, id, c, phase, now + seconds)
    ensures w' == w.(queue := w.queue.(now := now + seconds))
  {
    w' := S.Apply(w, S.Process(Q.Tick(seconds)));
    assert w'.phases == w.phases && w'.inflight == w.inflight;
  }

  lemma AfterStore(w: S.World, worker: Q.ProcessId, id: R.TaskId, c: ClientId, report: Report, stamp: Instant)
    returns (w': S.World)
    requires At(w, worker, id, c, S.Generating, stamp) && w.inflight[c].began <= stamp
    ensures S.Enabled(w, S.Store(worker, id, report, stamp)) && w' == S.Apply(w, S.Store(worker, id, report, stamp))
    ensures At(w', worker, id, c, S.Stored, stamp) && Aside(w, w', id, c)
    ensures w'.records == w.records[c := Record(report, w.inflight[c].listed, stamp)]
    ensures w'.clients == w.clients && w'.emails == w.emails && w'.tier == w.tier && w'.cap == w.cap
  {
    w' := S.Apply(w, S.Store(worker, id, report, stamp));
  }

  lemma AfterRetract(w: S.World, worker: Q.ProcessId, id: R.TaskId, c: ClientId, now: Instant, reply: Reply)
    returns (w': S.World)
    requires At(w, worker, id, c, S.Stored, now)
    ensures S.Enabled(w, S.Retract(worker, id, reply)) && w' == S.Apply(w, S.Retract(worker, id, reply))
    ensures At(w', worker, id, c, S.Retracted, now) && Aside(w, w', id, c)
    ensures w'.records == w.records && w'.clients == w.clients && w'.emails == w.emails && w'.cap == w.cap
    ensures w'.tier == Invalidate(w.tier, Summary(c), reply)
  {
    w' := S.Apply(w, S.Retract(worker, id, reply));
  }

  lemma AfterPublish(w: S.World, worker: Q.ProcessId, id: R.TaskId, c: ClientId, now: Instant, reply: Reply)
    returns (w': S.World)
    requires At(w, worker, id, c, S.Retracted, now) && c in w.records
    ensures S.Enabled(w, S.Publish(worker, id, reply)) && w' == S.Apply(w, S.Publish(worker, id, reply))
    ensures w'.records == w.records && w'.clients == w.clients && w'.emails == w.emails && c !in w'.inflight
    ensures Aside(w, w', id, c) && w'.queue.now == now
    ensures w'.tier == SetJson(w.tier, Summary(c), SummaryPayload(CurrentResponse(w.clients[c], w.records[c])), now, w.cap, reply)
  {
    w' := S.Apply(w, S.Publish(worker, id, reply));
    assert w' == S.AfterPublish(w, id, c, reply);
  }

  lemma RunToModel(w: S.World, worker: Q.ProcessId, id: R.TaskId, times: Times, logs: seq<LogRow>, decision: Decision)
    returns (w': S.World)
    requires MayBegin(w, worker, id, times) && Decides(w, id, times, logs, decision) && decision.Regenerate?
    ensures S.Legal(w, Asking(worker, id, times)) && w' == S.Run(w, Asking(worker, id, times))
    ensures var c := w.queue.rows[id].payload.clientId;
            && At(w', worker, id, c, S.Generating, times.stamped) && Aside(w, w', id, c)
            && w'.inflight[c].listed == |decision.emails| && w'.inflight[c].began == times.decided
    ensures Holds(w', TablesOf(w, logs)) && w'.tier == w.tier && w'.cap == w.cap
  {
    var begin, tick := S.Begin(worker, id), S.Process(Q.Tick(times.stamped - times.decided));
    var w1 := AfterBegin(w, worker, id, times, logs, decision);
    assert S.Run(w, []) == w && [] + [begin] == [begin];
    G.RunOneMore(w, [], begin);
    w' := TickKeeps(w1, worker, id, w.queue.rows[id].payload.clientId, S.Generating, times.decided, times.stamped - times.decided);
    G.RunOneMore(w, [begin], tick);
    assert [begin] + [tick] == Asking(worker, id, times);
  }

  lemma RunToCommit(w: S.World, worker: Q.ProcessId, id: R.TaskId, times: Times, report: Report, reloaded: bool,
                    logs: seq<LogRow>, decision: Decision)
    returns (w': S.World)
    requires MayBegin(w, worker, id, times) && Decides(w, id, times, logs, decision) && decision.Regenerate?
    ensures S.Legal(w, UpToCommit(worker, id, times, report)) && w' == S.Run(w, UpToCommit(worker, id, times, report))
    ensures var c := w.queue.rows[id].payload.clientId;
            && At(w', worker, id, c, S.Stored, times.stamped)
            && Holds(w', TablesAfter(TablesOf(w, logs), c, decision, times, Course(Some(report), reloaded)))
            && Aside(w, w', id, c)
    ensures w'.tier == w.tier && w'.cap == w.cap
  {
    var w2 := RunToModel(w, worker, id, times, logs, decision);
    w' := AfterStore(w2, worker, id, w.queue.rows[id].payload.clientId, report, times.stamped);
    G.RunOneMore(w, Asking(worker, id, times), S.Store(worker, id, report, times.stamped));
  }

  lemma RunToRetract(w: S.World, worker: Q.ProcessId, id: R.TaskId, c: ClientId, times: Times, reply: Reply,
                     start: seq<S.Event>, w3: S.World)
    returns (w': S.World)
    requires S.Legal(w, start) && w3 == S.Run(w, start) && times.stamped <= times.shared
    requires At(w3, worker, id, c, S.Stored, times.stamped)
    ensures var events := start + [S.Process(Q.Tick(times.shared - times.stamped))] + [S.Retract(worker, id, reply)];
            S.Legal(w, events) && w' == S.Run(w, events)
    ensures At(w', worker, id, c, S.Retracted, times.shared) && Aside(w3, w', id, c)
    ensures w'.records == w3.records && w'.clients == w3.clients && w'.emails == w3.emails && w'.cap == w3.cap
    ensures w'.tier == Invalidate(w3.tier, Summary(c), reply)
  {
    var tick := S.Process(Q.Tick(times.shared - times.stamped));
    var w4 := TickKeeps(w3, worker, id, c, S.Stored, times.stamped, times.shared - times.stamped);
    G.RunOneMore(w, start, tick);
    w' := AfterRetract(w4, worker, id, c, times.shared, reply);
    G.RunOneMore(w, start + [tick], S.Retract(worker, id, reply));
  }

  lemma RunToEnd(w: S.World, worker: Q.ProcessId, id: R.TaskId, c: ClientId, times: Times, net: Replies, start: seq<S.Event>, w3: S.World)
    returns (w': S.World)
    requires S.Legal(w, start) && w3 == S.Run(w, start) && times.stamped <= times.shared
    requires At(w3, worker, id, c, S.Stored, times.stamped) && c in w3.records
    ensures S.Legal(w, start + Sharing(worker, id, times, net)) && w' == S.Run(w, start + Sharing(worker, id, times, net))
    ensures w'.records == w3.records && w'.clients == w3.clients && w'.emails == w3.emails
    ensures Aside(w3, w', id, c) && c !in w'.inflight && w'.queue.now == times.shared
    ensures w'.tier == CommitTier(w3.tier, c, CurrentResponse(w3.clients[c], w3.records[c]), times.shared, w3.cap, net)
  {
    var tick, retract := S.Process(Q.Tick(times.shared - times.stamped)), S.Retract(worker, id, net.first);
    var w5 := RunToRetract(w, worker, id, c, times, net.first, start, w3);
    w' := AfterPublish(w5, worker, id, c, times.shared, net.second);
    G.RunOneMore(w, start + [tick] + [retract], S.Publish(worker, id, net.second));
    assert start + [tick] + [retract] + [S.Publish(worker, id, net.second)] == start + Sharing(worker, id, times, net);
  }

  /** These steps are a run from `w`, which leaves these tables and this cache. */
  ghost predicate Leads(w: S.World, events: seq<S.Event>, t: Tables, tier: Tier<Cached>) {
    S.Legal(w, events) && Holds(S.Run(w, events), t) && S.Run(w, events).tier == tier
  }

  /** A refresh that runs to its end is a run of the system, through the invalidation and the set. */
  lemma WholeRefreshIsARun(w: S.World, worker: Q.ProcessId, id: R.TaskId, times: Times, report: Report, net: Replies,
                           logs: seq<LogRow>, decision: Decision)
    requires MayBegin(w, worker, id, times) && Decides(w, id, times, logs, decision) && decision.Regenerate?
    ensures var c, course := w.queue.rows[id].payload.clientId, Course(Some(report), true);
            var t' := TablesAfter(TablesOf(w, logs), c, decision, times, course);
            var events := StepsOf(decision, worker, id, times, course, net);
            && Leads(w, events, t', TierAfter(w.tier, t', c, decision, times, course, w.cap, net))
            && Aside(w, S.Run(w, events), id, c) && c !in S.Run(w, events).inflight
            && S.Run(w, events).queue.now == times.shared
  {
    var c, course := w.queue.rows[id].payload.clientId, Course(Some(report), true);
    var t' := TablesAfter(TablesOf(w, logs), c, decision, times, course);
    var w3 := RunToCommit(w, worker, id, times, report, true, logs, decision);
    var w6 := RunToEnd(w, worker, id, c, times, net, UpToCommit(worker, id, times, report), w3);
    assert StepsOf(decision, worker, id, times, course, net) == UpToCommit(worker, id, times, report) + Sharing(worker, id, times, net);
    assert TierAfter(w.tier, t', c, decision, times, course, w.cap, net) == w6.tier by {
      SharedTier(w.tier, t', c, decision, times, course, w.cap, net);
    }
  }

  lemma SharedTier(tier: Tier<Cached>, t': Tables, c: ClientId, decision: Decision, times: Times, course: Course,
                   cap: nat, net: Replies)
    requires Commits(decision, course) && course.reloaded && c in t'.clients && c in t'.records
    ensures TierAfter(tier, t', c, decision, times, course, cap, net) ==
            CommitTier(tier, c, CurrentResponse(t'.clients[c], t'.records[c]), times.shared, cap, net)
  {
  }

  /** A refresh whose record does not reload ends torn. */
  lemma FailedRefreshIsARun(w: S.World, worker: Q.ProcessId, id: R.TaskId, times: Times, report: Report, net: Replies,
                            logs: seq<LogRow>, decision: Decision)
    requires MayBegin(w, worker, id, times) && Decides(w, id, times, logs, decision) && decision.Regenerate?
    ensures var c, course := w.queue.rows[id].payload.clientId, Course(Some(report), false);
            var events := StepsOf(decision, worker, id, times, course, net);
            && Leads(w, events, TablesAfter(TablesOf(w, logs), c, decision, times, course), w.tier)
            && id in S.Run(w, events).phases && S.Run(w, events).phases[id] == S.Torn
            && S.Run(w, events).target == w.target
  {
    var w3 := RunToCommit(w, worker, id, times, report, false, logs, decision);
    var w4 := AfterFailure(w3, worker, id);
    G.RunOneMore(w, UpToCommit(worker, id, times, report), S.Process(Q.Finish(worker, id, Q.Error)));
  }

  lemma AfterFailure(w: S.World, worker: Q.ProcessId, id: R.TaskId) returns (w': S.World)
    requires id in Q.WorkerOf(w.queue, worker).held
    ensures w' == S.Apply(w, S.Process(Q.Finish(worker, id, Q.Error)))
    ensures w'.clients == w.clients && w'.emails == w.emails && w'.records == w.records && w'.tier == w.tier
    ensures w'.target == w.target
    ensures id in w.phases && w.phases[id] == S.Stored ==> id in w'.phases && w'.phases[id] == S.Torn
  {
    w' := S.Apply(w, S.Process(Q.Finish(worker, id, Q.Error)));
  }

  /** A refusal, a skip or a lost model call is a run that leaves tables and cache alone. */
  lemma IdleRefreshIsARun(w: S.World, worker: Q.ProcessId, id: R.TaskId, times: Times, course: Course, net: Replies,
                          logs: seq<LogRow>, decision: Decision)
    requires MayBegin(w, worker, id, times) && Decides(w, id, times, logs, decision) && !Commits(decision, course)
    ensures Leads(w, StepsOf(decision, worker, id, times, course, net), TablesOf(w, logs), w.tier)
  {
    var begin, fails := S.Begin(worker, id), S.Process(Q.Finish(worker, id, Q.Error));
    var w1 := AfterBegin(w, worker, id, times, logs, decision);
    G.RunOneMore(w, [], begin);
    assert [] + [begin] == [begin] && [begin] + [fails] == [begin, fails];
    if decision.Regenerate? {
      var w2 := AfterFailure(w1, worker, id);
      G.RunOneMore(w, [begin], fails);
    }
  }

  /**
  Whatever the decision and however the refresh goes, the refresh of the service is a run of the system:
  its steps are enabled one after the other, and leave the tables and the cache `RefreshClientSummary` leaves.
  */
  lemma RefreshIsARun(w: S.World, worker: Q.ProcessId, id: R.TaskId, times: Times, course: Course, net: Replies,
                      logs: seq<LogRow>, decision: Decision)
    requires MayBegin(w, worker, id, times) && Decides(w, id, times, logs, decision)
    ensures var c := w.queue.rows[id].payload.clientId;
            var t' := TablesAfter(TablesOf(w, logs), c, decision, times, course);
            Leads(w, StepsOf(decision, worker, id, times, course, net), t',
                  TierAfter(w.tier, t', c, decision, times, course, w.cap, net))
  {
    if !Commits(decision, course) {
      IdleRefreshIsARun(w, worker, id, times, course, net, logs, decision);
    } else if course.reloaded {
      WholeRefreshIsARun(w, worker, id, times, course.llm.value, net, logs, decision);
    } else {
      FailedRefreshIsARun(w, worker, id, times, course.llm.value, net, logs, decision);
    }
  }

  /** A read in the system is the read of the service, and an invalidation the cache's. */
  lemma ReadsAreCalls(w: S.World, c: ClientId, net: Replies, reply: Reply)
    requires c in w.clients
    ensures S.Apply(w, S.Read(c, net)).tier == ReadTier(w.tier, w.clients, w.records, c, w.queue.now, w.ttl, w.cap, net)
    ensures G.ReadNow(w, c, w.ttl, net) == ReadOf(w.tier, w.clients, w.records, c, w.queue.now, w.ttl, net)
    ensures S.Apply(w, S.InvalidateSummary(c, reply)).tier == Invalidate(w.tier, Summary(c), reply)
  {
  }
}

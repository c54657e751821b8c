/**
The run that shows what the cache guarantee must leave out: a refresh that ends after the commit of
a new record and before the invalidation of the cached response leaves every later hit on the old one.
*/
module TornCommit {
  import opened Common
  import opened Clients
  import opened TaskRows
  import opened SummaryPolicy
  import opened SummarySystem
  import opened SummaryGuarantees
  import L = LocalStore
  import T = TieredCache
  import Q = TaskQueue
  import V = SummaryService

  const CLIENT := Client(1, "Acme", 1, "acme@example.com")
  const CAPTURED: TaskId := 7
  const FORCED: TaskId := 8
  const FIRST := Report("first", [], [], [], 0, 0)
  const SECOND := Report("second", [], [], [], 0, 0)

  const FORCE := Payload(1, None, Some(0), true)

  // ---- Both tasks in the hands of one worker ---------------------------------------------------------

  /** Both tasks are submitted, and worker 0 has come this far with them. */
  ghost predicate Working(q: Q.Queue, me: Q.Worker) {
    && q.now == 0 && q.rows.Keys == {CAPTURED, FORCED} && Q.WorkerOf(q, 0) == me
    && q.rows[CAPTURED].payload == CapturePayload(1, 0) && q.rows[FORCED].payload == FORCE
    && forall id :: id in me.stale ==> Claimable(q.rows, id)
  }

  lemma Polls(q: Q.Queue)
    requires Working(q, Q.IDLE) && PendingIds(q.rows) == {CAPTURED, FORCED}
    ensures Q.Enabled(q, Q.Poll(0, {CAPTURED, FORCED}))
    ensures Working(Q.Apply(q, Q.Poll(0, {CAPTURED, FORCED})), Q.Worker({CAPTURED, FORCED}, {}, {}))
  {
  }

  /** Claiming a polled task and loading it. */
  lemma Takes(q: Q.Queue, me: Q.Worker, id: TaskId)
    requires Working(q, me) && id in me.stale && me.claimed == {}
    ensures Q.Enabled(q, Q.TryClaim(0, id))
    ensures Q.Enabled(Q.Apply(q, Q.TryClaim(0, id)), Q.Load(0, id))
    ensures Working(Q.Apply(Q.Apply(q, Q.TryClaim(0, id)), Q.Load(0, id)), Q.Worker(me.stale - {id}, {}, me.held + {id}))
  {
    var q1 := Q.Apply(q, Q.TryClaim(0, id));
    var q2 := Q.Apply(q1, Q.Load(0, id));
    assert Q.WorkerOf(q1, 0).claimed == {id};
    assert Q.WorkerOf(q2, 0) == Q.Worker(me.stale - {id}, {}, me.held + {id});
  }

  /** Before any refresh has begun, a step of the queue changes nothing else. */
  lemma QueueMoves(w: World, s: Q.Step)
    requires Reachable(w) && w.inflight == map[] && w.phases == map[]
    requires Q.Enabled(w.queue, s) && !s.Submit? && !s.Finish?
    ensures Reachable(w.(queue := Q.Apply(w.queue, s)))
  {
    ReachableStep(w, Process(s));
    assert AfterProcess(w, s) == w.(queue := Q.Apply(w.queue, s));
  }

  /** One client with one email, a live Redis, and a worker that executes both its refresh tasks. */
  ghost predicate Ready(w: World) {
    && Reachable(w) && w.clients == map[1 := CLIENT] && w.emails == [Email(1, 0, 0, CAPTURED)]
    && w.inflight == map[] && T.Live(w.tier) && FORCED !in w.phases
    && Working(w.queue, Q.Worker({}, {}, {CAPTURED, FORCED}))
  }

  /** Everything but the queue, before any refresh has begun. */
  ghost predicate Idle(w: World) {
    && w.clients == map[1 := CLIENT] && w.emails == [Email(1, 0, 0, CAPTURED)]
    && w.inflight == map[] && w.phases == map[] && w.records == map[] && T.Live(w.tier)
  }

  lemma CaptureFirst() returns (w: World)
    ensures Reachable(w) && Idle(w) && w.queue.now == 0 && w.queue.workers == map[] && w.queue.submitted == {CAPTURED}
    ensures w.queue.rows == map[CAPTURED := NewTask(TASK_TYPE, CapturePayload(1, 0), 0)]
  {
    var w0 := Initial(map[1 := CLIENT], 0, true, 60, 10);
    assert Boot(w0);
    assert Run(w0, []) == w0;
    ReachableStep(w0, Capture(1, 0, 0, CAPTURED));
    w := Apply(w0, Capture(1, 0, 0, CAPTURED));
  }

  lemma BothPending(q: Q.Queue, before: Q.Queue)
    requires before.rows == map[CAPTURED := NewTask(TASK_TYPE, CapturePayload(1, 0), 0)] && before.workers == map[]
    requires q == Q.Apply(before, Q.Submit(FORCED, TASK_TYPE, FORCE)) && before.now == 0
    ensures Working(q, Q.IDLE) && PendingIds(q.rows) == {CAPTURED, FORCED}
  {
    assert q.rows == map[CAPTURED := NewTask(TASK_TYPE, CapturePayload(1, 0), 0), FORCED := NewTask(TASK_TYPE, FORCE, 0)];
  }

  lemma Started() returns (w: World)
    ensures Reachable(w) && Idle(w)
    ensures Working(w.queue, Q.IDLE) && PendingIds(w.queue.rows) == {CAPTURED, FORCED}
  {
    var w1 := CaptureFirst();
    ReachableStep(w1, Enqueue(FORCED, FORCE));
    w := Apply(w1, Enqueue(FORCED, FORCE));
    assert w == AfterSubmit(w1, FORCED, FORCE);
    BothPending(w.queue, w1.queue);
  }

  lemma Polled() returns (w: World)
    ensures Reachable(w) && Idle(w) && Working(w.queue, Q.Worker({CAPTURED, FORCED}, {}, {}))
  {
    var w0 := Started();
    Polls(w0.queue);
    QueueMoves(w0, Q.Poll(0, {CAPTURED, FORCED}));
    w := w0.(queue := Q.Apply(w0.queue, Q.Poll(0, {CAPTURED, FORCED})));
  }

  lemma Executing() returns (w: World)
    ensures Ready(w) && w.records == map[] && w.phases == map[]
  {
    var w1 := Polled();
    var w2 := Taken(w1, Q.Worker({CAPTURED, FORCED}, {}, {}), CAPTURED);
    assert {CAPTURED, FORCED} - {CAPTURED} == {FORCED} && {} + {CAPTURED} == {CAPTURED};
    w := Taken(w2, Q.Worker({FORCED}, {}, {CAPTURED}), FORCED);
    assert {FORCED} - {FORCED} == {} && {CAPTURED} + {FORCED} == {CAPTURED, FORCED};
  }

  lemma Taken(w: World, me: Q.Worker, id: TaskId) returns (w': World)
    requires Reachable(w) && w.inflight == map[] && w.phases == map[]
    requires Working(w.queue, me) && id in me.stale && me.claimed == {}
    ensures Reachable(w') && w' == w.(queue := w'.queue)
    ensures Working(w'.queue, Q.Worker(me.stale - {id}, {}, me.held + {id}))
  {
    Takes(w.queue, me, id);
    QueueMoves(w, Q.TryClaim(0, id));
    var w1 := w.(queue := Q.Apply(w.queue, Q.TryClaim(0, id)));
    QueueMoves(w1, Q.Load(0, id));
    w' := w1.(queue := Q.Apply(w1.queue, Q.Load(0, id)));
  }

  // ---- Their refreshes ---------------------------------------------------------------------------------

  const NOW := V.Times(0, 0, 0, 0, 0)
  const ANSWERED := Replies(T.Done, T.Done)

  lemma Regenerates(w: World, id: TaskId) returns (decision: Decision)
    requires Ready(w) && id in {CAPTURED, FORCED} && (id == CAPTURED ==> w.records == map[])
    ensures V.Decides(w, id, NOW, [], decision) && decision.Regenerate?
  {
    InRangeMember(w.emails, 1, EPOCH, 0, 0);
    ListedAll(w.emails, 1, EPOCH, 0);
    decision := DecisionFor(w, w.queue.rows[id].payload);
  }

  /** What a refresh leaves that runs to its end. */
  lemma Refreshed(w: World) returns (w': World)
    requires Ready(w) && CAPTURED !in w.phases && w.records == map[]
    ensures Reachable(w') && w'.clients == w.clients && w'.emails == w.emails
    ensures 1 in w'.records && w'.records[1].report == FIRST
    ensures V.Aside(w, w', CAPTURED, 1) && 1 !in w'.inflight && w'.queue.now == 0
    ensures w'.tier == CommitTier(w.tier, 1, CurrentResponse(w'.clients[1], w'.records[1]), 0, w.cap, ANSWERED)
  {
    var decision := Regenerates(w, CAPTURED);
    V.WholeRefreshIsARun(w, 0, CAPTURED, NOW, FIRST, ANSWERED, [], decision);
    var events := V.StepsOf(decision, 0, CAPTURED, NOW, V.Course(Some(FIRST), true), ANSWERED);
    RunReachable(w, events);
    w' := Run(w, events);
  }

  /** What a refresh leaves whose record does not reload. */
  lemma Broken(w: World) returns (w': World)
    requires Ready(w)
    ensures Reachable(w') && w'.clients == w.clients && w'.tier == w.tier && w'.target == w.target
    ensures 1 in w'.records && w'.records[1].report == SECOND
    ensures FORCED in w'.phases && w'.phases[FORCED] == Torn
  {
    var decision := Regenerates(w, FORCED);
    V.FailedRefreshIsARun(w, 0, FORCED, NOW, SECOND, ANSWERED, [], decision);
    var events := V.StepsOf(decision, 0, FORCED, NOW, V.Course(Some(SECOND), false), ANSWERED);
    RunReachable(w, events);
    w' := Run(w, events);
  }

  lemma CommittedTier(t: T.Tier<Cached>, response: Response, cap: nat)
    requires T.Live(t)
    ensures var t' := CommitTier(t, 1, response, 0, cap, ANSWERED);
            T.Live(t') && L.Summary(1) in t'.remote && t'.remote[L.Summary(1)] == SummaryPayload(response)
  {
  }

  /** The refresh of the captured email runs to its end: its response is in Redis. */
  lemma FirstPublished() returns (w: World)
    ensures Ready(w) && 1 in w.records && w.records[1].report == FIRST
    ensures L.Summary(1) in w.tier.remote
    ensures w.tier.remote[L.Summary(1)] == SummaryPayload(CurrentResponse(CLIENT, w.records[1]))
  {
    var w0 := Executing();
    w := Refreshed(w0);
    CommittedTier(w0.tier, CurrentResponse(CLIENT, w.records[1]), w0.cap);
    assert 1 !in w.inflight && w.inflight.Keys + {1} == {1};
    assert w.inflight.Keys == {};
  }

  /**
  A reachable world in which the record is the second one, its refresh is over, and a read that Redis
  answers returns the first.
  */
  lemma TornCommitMisleads() returns (w: World)
    ensures Reachable(w) && WasTorn(w, 1)
    ensures 1 in w.clients && 1 in w.records && w.records[1].report == SECOND
    ensures forall ttl: int, second: T.Reply ::
              var shown := ReadNow(w, 1, ttl, Replies(T.Done, second));
              && shown != Rebuilt(w, 1)
              && shown.Shown? && shown.response.result.Some? && shown.response.result.value.report == FIRST
  {
    var w0 := FirstPublished();
    w := Broken(w0);
    assert FORCED in w0.target && w0.target[FORCED].clientId == 1 by { ReachableInv(w0); }
    assert w.phases[FORCED] == Torn && w.target[FORCED].clientId == 1;
  }
}

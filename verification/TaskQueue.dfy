/**
The queue protocol of app/tasks/worker.py as a transition system: any number of workers poll a
list that goes stale, claim by conditional update, load, execute and mark; any number of cleaners
select and delete in two separate statements. Every step below is one database statement, and all
processes may interleave at every step, crash, or have a statement raise.
*/
module TaskQueue {
  import opened Common
  import opened TaskRows

  const MAX_CONCURRENT_TASKS: nat := 5
  const CLEANUP_BATCH_SIZE: nat := 10000

  type ProcessId = nat

  /** A worker's memory: polled ids not yet tried, tasks it claimed, tasks it is executing. */
  datatype Worker = Worker(stale: set<TaskId>, claimed: set<TaskId>, held: set<TaskId>)

  const IDLE := Worker({}, {}, {})

  datatype Handout = Handout(worker: ProcessId, id: TaskId)

  /**
  The database and the processes, with the history the properties speak about: the ids ever
  submitted, the claims the database granted, the executions begun, the outcome of each finished
  task and the sum of the counts the cleaners returned.
  */
  datatype Queue = Queue(
    rows: Rows, now: Instant,
    workers: map<ProcessId, Worker>, cleaners: map<ProcessId, set<TaskId>>,
    submitted: set<TaskId>, handed: seq<Handout>, started: seq<Handout>,
    verdicts: map<TaskId, bool>, removed: nat)

  function WorkerOf(q: Queue, w: ProcessId): Worker {
    if w in q.workers then q.workers[w] else IDLE
  }

  function SelectionOf(q: Queue, c: ProcessId): set<TaskId> {
    if c in q.cleaners then q.cleaners[c] else {}
  }

  datatype Outcome = Ok(result: string) | Error

  datatype Step =
    | Tick(seconds: nat)
    | Submit(id: TaskId, taskType: string, payload: Payload)
    | Poll(w: ProcessId, ids: set<TaskId>)
    | TryClaim(w: ProcessId, id: TaskId)
    | ClaimRaises(w: ProcessId, id: TaskId, applied: bool)
    | Load(w: ProcessId, id: TaskId)
    | Finish(w: ProcessId, id: TaskId, outcome: Outcome)
    | Abandon(w: ProcessId, id: TaskId)
    | Crash(w: ProcessId)
    | Select(c: ProcessId, ids: set<TaskId>)
    | Delete(c: ProcessId)
    | CleanerCrash(c: ProcessId)

  ghost predicate Enabled(q: Queue, s: Step) {
    match s
    case Tick(_) => true
    case Submit(id, _, _) => id !in q.submitted
    case Poll(w, ids) => WorkerOf(q, w) == IDLE && Limited(ids, PendingIds(q.rows), MAX_CONCURRENT_TASKS)
    case TryClaim(w, id) => id in WorkerOf(q, w).stale
    case ClaimRaises(w, id, _) => id in WorkerOf(q, w).stale
    case Load(w, id) => id in WorkerOf(q, w).claimed
    case Finish(w, id, _) => id in WorkerOf(q, w).held
    case Abandon(w, id) => id in WorkerOf(q, w).held
    case Crash(_) => true
    case Select(c, ids) => SelectionOf(q, c) == {} && Limited(ids, ExpiredIds(q.rows, q.now), CLEANUP_BATCH_SIZE)
    case Delete(_) => true
    case CleanerCrash(_) => true
  }

  function SetWorker(q: Queue, w: ProcessId, worker: Worker): Queue {
    q.(workers := q.workers[w := worker])
  }

  /** The claim statement on behalf of `w`, with the handout it may grant. */
  function ClaimFor(q: Queue, w: ProcessId, id: TaskId): Queue {
    if Claimable(q.rows, id)
    then q.(rows := Claim(q.rows, id, q.now), handed := q.handed + [Handout(w, id)])
    else q
  }

  function Apply(q: Queue, s: Step): Queue {
    match s
    case Tick(seconds) => q.(now := q.now + seconds)
    case Submit(id, taskType, payload) =>
      q.(rows := Create(q.rows, id, taskType, payload, q.now), submitted := q.submitted + {id})
    case Poll(w, ids) => SetWorker(q, w, IDLE.(stale := ids))
    case TryClaim(w, id) =>
      var me := WorkerOf(q, w);
      var won := if Claimable(q.rows, id) then {id} else {};
      SetWorker(ClaimFor(q, w, id), w, me.(stale := me.stale - {id}, claimed := me.claimed + won))
    case ClaimRaises(w, id, applied) =>
      var me := WorkerOf(q, w);
      SetWorker(if applied then ClaimFor(q, w, id) else q, w, me.(stale := me.stale - {id}))
    case Load(w, id) =>
      var me := WorkerOf(q, w);
      var found := if id in q.rows then {id} else {};
      SetWorker(q, w, me.(claimed := me.claimed - {id}, held := me.held + found)).(
        started := if id in q.rows then q.started + [Handout(w, id)] else q.started)
    case Finish(w, id, outcome) =>
      var me := WorkerOf(q, w);
      SetWorker(q, w, me.(held := me.held - {id})).(
        rows := match outcome
                case Ok(result) => Succeed(q.rows, id, result, q.now)
                case Error => Fail(q.rows, id, EXECUTION_FAILED, q.now),
        verdicts := q.verdicts[id := outcome.Ok?])
    case Abandon(w, id) =>
      var me := WorkerOf(q, w);
      SetWorker(q, w, me.(held := me.held - {id}))
    case Crash(w) => SetWorker(q, w, IDLE)
    case Select(c, ids) => q.(cleaners := q.cleaners[c := ids])
    case Delete(c) =>
      q.(rows := DeleteIds(q.rows, SelectionOf(q, c)),
         removed := q.removed + Deleted(q.rows, SelectionOf(q, c)),
         cleaners := q.cleaners[c := {}])
    case CleanerCrash(c) => q.(cleaners := q.cleaners[c := {}])
  }

  function Initial(now: Instant): Queue {
    Queue(map[], now, map[], map[], {}, [], [], map[], 0)
  }

  ghost predicate Legal(q: Queue, steps: seq<Step>)
    decreases |steps|
  {
    steps != [] ==> Enabled(q, steps[0]) && Legal(Apply(q, steps[0]), steps[1..])
  }

  function Run(q: Queue, steps: seq<Step>): Queue
    decreases |steps|
  {
    if steps == [] then q else Run(Apply(q, steps[0]), steps[1..])
  }

  // ---- The invariant ---------------------------------------------------------------------------

  ghost predicate AtMostOnce(log: seq<Handout>) {
    forall i, j :: 0 <= i < j < |log| ==> log[i].id != log[j].id
  }

  function Ids(log: seq<Handout>): set<TaskId> {
    set h | h in log :: h.id
  }

  ghost predicate RowsInv(q: Queue) {
    && q.rows.Keys <= q.submitted
    && (forall id :: id in q.rows ==> WellFormed(q.rows[id], q.now))
  }

  /** No task is lost: each is in the table or was counted by the cleaner that removed it. */
  ghost predicate CountInv(q: Queue) {
    q.removed + |q.rows| == |q.submitted|
  }

  /** The database grants each id once, exactly when it leaves the pending state. */
  ghost predicate HandedInv(q: Queue) {
    && AtMostOnce(q.handed)
    && (forall id :: id in Ids(q.handed) <==> id in q.submitted && !Claimable(q.rows, id))
  }

  ghost predicate RunningFor(q: Queue, w: ProcessId, id: TaskId) {
    id in q.rows && q.rows[id].status == Running && Handout(w, id) in q.handed
  }

  /** What a worker claimed or executes is running, in its name, and is executed once. */
  ghost predicate WorkerInv(q: Queue, w: ProcessId) {
    && (forall id :: id in WorkerOf(q, w).claimed ==> RunningFor(q, w, id) && id !in Ids(q.started))
    && (forall id :: id in WorkerOf(q, w).held ==> RunningFor(q, w, id) && Handout(w, id) in q.started)
  }

  ghost predicate WorkersInv(q: Queue) {
    && AtMostOnce(q.started)
    && (forall h :: h in q.started ==> h in q.handed)
    && (forall w :: WorkerInv(q, w))
  }

  /** What a cleaner selected stays expired, though nothing rechecks it. */
  ghost predicate CleanersInv(q: Queue) {
    forall c, id :: id in SelectionOf(q, c) ==>
                      id in q.submitted && (id in q.rows ==> IsExpired(q.rows[id], q.now))
  }

  ghost predicate VerdictsInv(q: Queue) {
    && (forall id :: id in q.submitted && id !in q.rows ==> id in q.verdicts)
    && (forall id :: id in q.verdicts ==> id in q.submitted)
    && (forall id :: id in q.rows ==>
          if id in q.verdicts then q.rows[id].status == (if q.verdicts[id] then Succeeded else Failed)
          else !Terminal(q.rows[id]))
  }

  /** What the database and its history agree on. */
  ghost predicate Ledger(q: Queue) {
    RowsInv(q) && CountInv(q) && HandedInv(q) && VerdictsInv(q)
  }

  ghost predicate Inv(q: Queue) {
    Ledger(q) && WorkersInv(q) && CleanersInv(q)
  }
}

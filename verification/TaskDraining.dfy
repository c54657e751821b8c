/** How fast a backlog goes, whatever the other processes do. */
module TaskDraining {
  import opened Common
  import opened TaskRows
  import opened TaskQueue

  function Polls(w: ProcessId, steps: seq<Step>): nat {
    if steps == [] then 0 else (if steps[0].Poll? && steps[0].w == w then 1 else 0) + Polls(w, steps[1..])
  }

  /** Nothing new is submitted, and `w` neither crashes nor has a claim raise. */
  ghost predicate Steady(w: ProcessId, steps: seq<Step>) {
    forall i :: 0 <= i < |steps| ==>
      !steps[i].Submit? && steps[i] != Crash(w) && !(steps[i].ClaimRaises? && steps[i].w == w)
  }

  /** The pending tasks `w` has not on its list. */
  function Beyond(q: Queue, w: ProcessId): set<TaskId> {
    PendingIds(q.rows) - WorkerOf(q, w).stale
  }

  lemma PollBeyond(q: Queue, w: ProcessId, ids: set<TaskId>)
    requires Enabled(q, Poll(w, ids))
    ensures |Beyond(Apply(q, Poll(w, ids)), w)| == Max(0, |Beyond(q, w)| - MAX_CONCURRENT_TASKS)
  {
    assert Beyond(q, w) == PendingIds(q.rows);
    SubsetCard(ids, PendingIds(q.rows));
    assert Beyond(Apply(q, Poll(w, ids)), w) == PendingIds(q.rows) - ids;
  }

  lemma StepBeyond(q: Queue, w: ProcessId, s: Step)
    requires Enabled(q, s) && Steady(w, [s]) && !(s.Poll? && s.w == w)
    ensures |Beyond(Apply(q, s), w)| <= |Beyond(q, w)|
  {
    assert [s][0] == s;
    assert PendingIds(Apply(q, s).rows) <= PendingIds(q.rows);
    assert Beyond(Apply(q, s), w) <= Beyond(q, w);
    SubsetCard(Beyond(Apply(q, s), w), Beyond(q, w));
  }

  lemma {:induction false} Backlog(q: Queue, w: ProcessId, steps: seq<Step>)
    requires Legal(q, steps) && Steady(w, steps)
    requires WorkerOf(Run(q, steps), w).stale == {}
    ensures |PendingIds(Run(q, steps).rows)| <= Max(0, |Beyond(q, w)| - MAX_CONCURRENT_TASKS * Polls(w, steps))
    decreases |steps|
  {
    if steps == [] {
      assert Beyond(q, w) == PendingIds(q.rows);
    } else {
      var s := steps[0];
      assert Steady(w, steps[1..]);
      Backlog(Apply(q, s), w, steps[1..]);
      if s.Poll? && s.w == w {
        PollBeyond(q, w, s.ids);
      } else {
        assert Steady(w, [s]);
        StepBeyond(q, w, s);
      }
    }
  }

  /**
  Between two moments at which `w` has tried everything it polled, every completed pass of `w`
  takes five pending tasks off the queue (its own or lost to another worker): n pending tasks are
  all claimed once `w` has made ceil(n/5) passes.
  */
  lemma QueueDrains(q: Queue, w: ProcessId, steps: seq<Step>)
    requires Legal(q, steps) && Steady(w, steps)
    requires WorkerOf(q, w).stale == {} && WorkerOf(Run(q, steps), w).stale == {}
    ensures |PendingIds(Run(q, steps).rows)| <= Max(0, |PendingIds(q.rows)| - 5 * Polls(w, steps))
    ensures |PendingIds(q.rows)| <= 5 * Polls(w, steps) ==> PendingIds(Run(q, steps).rows) == {}
  {
    assert Beyond(q, w) == PendingIds(q.rows);
    Backlog(q, w, steps);
  }

  // ---- Cleaners ----------------------------------------------------------------------------------

  function Selects(c: ProcessId, steps: seq<Step>): nat {
    if steps == [] then 0 else (if steps[0].Select? && steps[0].c == c then 1 else 0) + Selects(c, steps[1..])
  }

  /** `c` itself does not crash; the clock runs, and everybody else does what they do. */
  ghost predicate Cleaning(c: ProcessId, steps: seq<Step>) {
    forall i :: 0 <= i < |steps| ==> steps[i] != CleanerCrash(c)
  }

  /** The tasks a step makes expired. */
  function Expiring(q: Queue, s: Step): set<TaskId> {
    ExpiredIds(Apply(q, s).rows, Apply(q, s).now) - ExpiredIds(q.rows, q.now)
  }

  /** How many tasks expire in the course of a run. */
  function NewlyIn(q: Queue, steps: seq<Step>): nat
    decreases |steps|
  {
    if steps == [] then 0 else |Expiring(q, steps[0])| + NewlyIn(Apply(q, steps[0]), steps[1..])
  }

  function Unselected(q: Queue, c: ProcessId): set<TaskId> {
    ExpiredIds(q.rows, q.now) - SelectionOf(q, c)
  }

  lemma SelectUnselected(q: Queue, c: ProcessId, ids: set<TaskId>)
    requires Enabled(q, Select(c, ids))
    ensures |Unselected(Apply(q, Select(c, ids)), c)| == Max(0, |Unselected(q, c)| - CLEANUP_BATCH_SIZE)
  {
    assert Unselected(q, c) == ExpiredIds(q.rows, q.now);
    SubsetCard(ids, ExpiredIds(q.rows, q.now));
    assert Unselected(Apply(q, Select(c, ids)), c) == ExpiredIds(q.rows, q.now) - ids;
  }

  lemma SelectionKept(q: Queue, c: ProcessId, s: Step)
    requires s != CleanerCrash(c) && s != Delete(c) && !(s.Select? && s.c == c)
    ensures SelectionOf(Apply(q, s), c) == SelectionOf(q, c)
  {
  }

  lemma DeleteUnselected(q: Queue, c: ProcessId)
    ensures Unselected(Apply(q, Delete(c)), c) <= Unselected(q, c)
  {
  }

  lemma StepUnselected(q: Queue, c: ProcessId, s: Step)
    requires s != CleanerCrash(c) && !(s.Select? && s.c == c)
    ensures |Unselected(Apply(q, s), c)| <= |Unselected(q, c)| + |Expiring(q, s)|
  {
    var before, after, newly := Unselected(q, c), Unselected(Apply(q, s), c), Expiring(q, s);
    assert after <= before + newly by {
      if s == Delete(c) { DeleteUnselected(q, c); } else { SelectionKept(q, c, s); }
    }
    SubsetCard(after, before + newly);
  }

  /** How many tasks are expired. */
  function Expired(q: Queue): nat {
    |ExpiredIds(q.rows, q.now)|
  }

  ghost predicate Bounded(q: Queue, c: ProcessId, steps: seq<Step>, left: nat) {
    left <= Max(0, |Unselected(q, c)| - CLEANUP_BATCH_SIZE * Selects(c, steps)) + NewlyIn(q, steps)
  }

  lemma SelectsStep(c: ProcessId, s: Step, rest: seq<Step>)
    ensures CLEANUP_BATCH_SIZE * Selects(c, [s] + rest) ==
            (if s.Select? && s.c == c then CLEANUP_BATCH_SIZE else 0) + CLEANUP_BATCH_SIZE * Selects(c, rest)
  {
    assert ([s] + rest)[1..] == rest;
  }

  lemma NewlyStep(q: Queue, s: Step, rest: seq<Step>)
    ensures NewlyIn(q, [s] + rest) == |Expiring(q, s)| + NewlyIn(Apply(q, s), rest)
  {
    assert ([s] + rest)[1..] == rest;
  }

  lemma BoundedStep(q: Queue, c: ProcessId, s: Step, rest: seq<Step>, left: nat)
    requires Enabled(q, s) && s != CleanerCrash(c) && Bounded(Apply(q, s), c, rest, left)
    ensures Bounded(q, c, [s] + rest, left)
  {
    StepBacklog(q, c, s);
    SelectsStep(c, s, rest);
    NewlyStep(q, s, rest);
  }

  lemma NothingSelected(q: Queue, c: ProcessId)
    requires SelectionOf(q, c) == {}
    ensures Unselected(q, c) == ExpiredIds(q.rows, q.now)
  {
  }

  lemma {:induction false} ExpiredBacklog(q: Queue, c: ProcessId, steps: seq<Step>, left: nat)
    requires Legal(q, steps) && Cleaning(c, steps)
    requires left == Expired(Run(q, steps)) && SelectionOf(Run(q, steps), c) == {}
    ensures Bounded(q, c, steps, left)
    decreases |steps|
  {
    if steps == [] {
      assert Unselected(q, c) == ExpiredIds(q.rows, q.now);
    } else {
      var s, rest := steps[0], steps[1..];
      assert Cleaning(c, rest);
      assert steps == [s] + rest;
      ExpiredBacklog(Apply(q, s), c, rest, left);
      BoundedStep(q, c, s, rest, left);
    }
  }

  lemma StepBacklog(q: Queue, c: ProcessId, s: Step)
    requires Enabled(q, s) && s != CleanerCrash(c)
    ensures var batch := if s.Select? && s.c == c then CLEANUP_BATCH_SIZE else 0;
            |Unselected(Apply(q, s), c)| <= Max(0, |Unselected(q, c)| - batch) + |Expiring(q, s)|
  {
    if s.Select? && s.c == c { SelectUnselected(q, c, s.ids); } else { StepUnselected(q, c, s); }
  }

  /**
  In any run between two moments at which `c` holds no selection, with time passing and all others
  working, every clean-up of `c` takes 10000 of the tasks expired at the start off the table, so that
  what is left is at most the rest of them and what expired on the way.
  */
  lemma ExpiredDrain(q: Queue, c: ProcessId, steps: seq<Step>)
    requires Legal(q, steps) && Cleaning(c, steps)
    requires SelectionOf(q, c) == {} && SelectionOf(Run(q, steps), c) == {}
    ensures var q' := Run(q, steps);
            |ExpiredIds(q'.rows, q'.now)| <=
              Max(0, |ExpiredIds(q.rows, q.now)| - 10000 * Selects(c, steps)) + NewlyIn(q, steps)
  {
    NothingSelected(q, c);
    var left := Expired(Run(q, steps));
    ExpiredBacklog(q, c, steps, left);
  }

  /** m expired tasks are all gone after ceil(m/10000) clean-ups of one cleaner, if no others expire meanwhile. */
  lemma ExpiredGone(q: Queue, c: ProcessId, steps: seq<Step>)
    requires Legal(q, steps) && Cleaning(c, steps)
    requires SelectionOf(q, c) == {} && SelectionOf(Run(q, steps), c) == {}
    requires NewlyIn(q, steps) == 0 && |ExpiredIds(q.rows, q.now)| <= 10000 * Selects(c, steps)
    ensures ExpiredIds(Run(q, steps).rows, Run(q, steps).now) == {}
  {
    ExpiredDrain(q, c, steps);
  }
}

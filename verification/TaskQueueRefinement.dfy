/**
Every run of the queue protocol refines a one-line queue: an id is submitted, waits, and is handed
to one process, once.
*/
module TaskQueueRefinement {
  import opened Common
  import opened TaskRows
  import opened TaskQueue
  import opened TaskQueueInv

  /** The abstract queue. */
  datatype Spec = Spec(known: set<TaskId>, waiting: set<TaskId>, handed: seq<Handout>)

  function SpecSubmit(a: Spec, id: TaskId): Spec {
    Spec(a.known + {id}, a.waiting + {id}, a.handed)
  }

  function SpecHand(a: Spec, h: Handout): Spec {
    Spec(a.known, a.waiting - {h.id}, a.handed + [h])
  }

  ghost predicate SpecNext(a: Spec, b: Spec) {
    || a == b
    || (exists id :: id !in a.known && b == SpecSubmit(a, id))
    || (exists h: Handout :: h.id in a.waiting && b == SpecHand(a, h))
  }

  /** A run of the abstract queue. */
  ghost predicate Behaviour(t: seq<Spec>) {
    forall i :: 0 <= i < |t| - 1 ==> SpecNext(t[i], t[i + 1])
  }

  ghost predicate SpecInv(a: Spec) {
    && AtMostOnce(a.handed)
    && a.waiting <= a.known && Ids(a.handed) == a.known - a.waiting
  }

  lemma SpecNextInv(a: Spec, b: Spec)
    requires SpecInv(a) && SpecNext(a, b)
    ensures SpecInv(b)
  {
    if a != b && exists h: Handout :: h.id in a.waiting && b == SpecHand(a, h) {
      var h: Handout :| h.id in a.waiting && b == SpecHand(a, h);
      AppendOnce(a.handed, h);
    }
  }

  /** The abstract queue hands out each id once, and then it no longer waits. */
  lemma {:induction false} SpecHandsOnce(t: seq<Spec>, i: nat)
    requires Behaviour(t) && i < |t| && SpecInv(t[0])
    ensures SpecInv(t[i])
  {
    if i > 0 {
      SpecHandsOnce(t, i - 1);
      assert SpecNext(t[i - 1], t[i - 1 + 1]);
      SpecNextInv(t[i - 1], t[i]);
    }
  }

  /** What the database and its processes look like from the abstract queue. */
  function Abs(q: Queue): Spec {
    Spec(q.submitted, PendingIds(q.rows), q.handed)
  }

  lemma ClaimForRefines(q: Queue, w: ProcessId, id: TaskId)
    requires Inv(q)
    ensures SpecNext(Abs(q), Abs(ClaimFor(q, w, id)))
  {
    if Claimable(q.rows, id) {
      var q' := ClaimFor(q, w, id);
      assert PendingIds(q'.rows) == PendingIds(q.rows) - {id};
      assert Abs(q') == SpecHand(Abs(q), Handout(w, id));
    }
  }

  lemma SubmitRefines(q: Queue, s: Step)
    requires s.Submit? && Enabled(q, s)
    ensures SpecNext(Abs(q), Abs(Apply(q, s)))
  {
    assert PendingIds(Apply(q, s).rows) == PendingIds(q.rows) + {s.id};
    assert Abs(Apply(q, s)) == SpecSubmit(Abs(q), s.id);
  }

  lemma FinishRefines(q: Queue, s: Step)
    requires Inv(q) && s.Finish? && Enabled(q, s)
    ensures Abs(Apply(q, s)) == Abs(q)
  {
    HeldRuns(q, s.w, s.id);
    assert PendingIds(Apply(q, s).rows) == PendingIds(q.rows);
  }

  lemma DeleteRefines(q: Queue, c: ProcessId)
    requires Inv(q)
    ensures Abs(Apply(q, Delete(c))) == Abs(q)
  {
    var q' := Apply(q, Delete(c));
    forall id ensures Claimable(q'.rows, id) <==> Claimable(q.rows, id) { DeleteKeepsOpen(q, c, id); }
    forall id ensures id in PendingIds(q'.rows) <==> id in PendingIds(q.rows) {
      assert Claimable(q'.rows, id) <==> Claimable(q.rows, id);
    }
  }

  lemma StepRefines(q: Queue, s: Step)
    requires Inv(q) && Enabled(q, s)
    ensures SpecNext(Abs(q), Abs(Apply(q, s)))
  {
    match s
    case Submit(_, _, _) => SubmitRefines(q, s);
    case TryClaim(w, id) => ClaimForRefines(q, w, id);
    case ClaimRaises(w, id, _) => ClaimForRefines(q, w, id);
    case Finish(_, _, _) => FinishRefines(q, s);
    case Delete(c) => DeleteRefines(q, c);
    case _ =>
  }

  /** The abstract states a run passes through. */
  function Trace(q: Queue, steps: seq<Step>): (t: seq<Spec>)
    ensures |t| == |steps| + 1 && t[0] == Abs(q)
    decreases |steps|
  {
    if steps == [] then [Abs(q)] else [Abs(q)] + Trace(Apply(q, steps[0]), steps[1..])
  }

  /**
  The refinement: whatever the interleaving of workers, cleaners, crashes and raised statements,
  each step of the protocol is a step of the abstract queue or invisible to it.
  */
  lemma {:induction false} RunRefines(q: Queue, steps: seq<Step>)
    requires Inv(q) && Legal(q, steps)
    ensures Behaviour(Trace(q, steps)) && Trace(q, steps)[|steps|] == Abs(Run(q, steps))
    decreases |steps|
  {
    if steps != [] {
      var mid := Apply(q, steps[0]);
      StepRefines(q, steps[0]);
      StepInv(q, steps[0]);
      RunRefines(mid, steps[1..]);
      var t, rest := Trace(q, steps), Trace(mid, steps[1..]);
      assert t == [Abs(q)] + rest;
      forall i | 0 <= i < |t| - 1 ensures SpecNext(t[i], t[i + 1]) {
        if i > 0 { assert t[i] == rest[i - 1] && t[i + 1] == rest[i - 1 + 1]; }
      }
    }
  }

  /** Who was handed the task. */
  ghost predicate ClaimedBy(q: Queue, id: TaskId, w: ProcessId) {
    Handout(w, id) in q.handed
  }

  /**
  In every reachable state: a task is claimed by one process at most, and executed at most once,
  by its claimer; a running task has exactly one claimer and a pending one none.
  */
  lemma ExecutedOnce(now: Instant, steps: seq<Step>, id: TaskId)
    requires Legal(Initial(now), steps)
    ensures var q := Run(Initial(now), steps);
            && (forall v, w :: ClaimedBy(q, id, v) && ClaimedBy(q, id, w) ==> v == w)
            && (forall i, j :: 0 <= i < j < |q.started| ==> q.started[i].id != q.started[j].id)
            && (forall w :: Handout(w, id) in q.started ==> ClaimedBy(q, id, w))
            && (id in q.submitted ==> (Claimable(q.rows, id) <==> forall w :: !ClaimedBy(q, id, w)))
            && (forall v, w :: id in WorkerOf(q, v).held && id in WorkerOf(q, w).held ==> v == w)
  {
    InitialInv(now);
    RunInv(Initial(now), steps);
    var q := Run(Initial(now), steps);
    forall v, w | ClaimedBy(q, id, v) && ClaimedBy(q, id, w) ensures v == w {
      OneWorker(q.handed, v, w, id);
    }
    if id in q.submitted && !Claimable(q.rows, id) {
      assert id in Ids(q.handed);
      var h :| h in q.handed && h.id == id;
      assert ClaimedBy(q, id, h.worker);
    }
    forall w | ClaimedBy(q, id, w) ensures !Claimable(q.rows, id) {
      assert Handout(w, id).id in Ids(q.handed);
    }
    forall v, w | id in WorkerOf(q, v).held && id in WorkerOf(q, w).held ensures v == w {
      HeldOnce(q, v, w, id);
    }
  }
}

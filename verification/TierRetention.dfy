/**
What the two-tier cache keeps: calls on one key leave the others alone, and a payload that was set is
found until Redis fails, the server forgets it, its time is over, or more recent keys take its place.
*/
module TierRetention {
  import opened Common
  import opened TieredCache
  import L = LocalStore
  import W = LruWorkingSet

  /** The local store is well formed, and empty while Redis is in use. */
  ghost predicate Shaped<V>(t: Tier<V>) {
    L.Valid(t.local) && (Live(t) ==> t.local == L.Empty())
  }

  // ---- One call ------------------------------------------------------------------------------------

  /** An invalidation of another key, unless Redis fails on it, changes no lookup. */
  lemma InvalidateSparesOthers<V>(t: Tier<V>, j: L.Key, sent: Reply, k: L.Key, now: int, ttl: int, got: Reply)
    requires Shaped(t) && k != j && (Live(t) ==> sent == Done)
    ensures FoundJson(Invalidate(t, j, sent), k, now, ttl, got) == FoundJson(t, k, now, ttl, got)
    ensures FoundJson(Invalidate(t, k, sent), k, now, ttl, got) == None
  {
  }

  /** Nor does a lookup of another key. */
  lemma GetSparesOthers<V>(t: Tier<V>, j: L.Key, at: int, age: int, sent: Reply, k: L.Key, now: int, ttl: int, got: Reply)
    requires Shaped(t) && k != j && (Live(t) ==> sent == Done)
    ensures FoundJson(GetJson(t, j, at, age, sent), k, now, ttl, got) == FoundJson(t, k, now, ttl, got)
  {
  }

  lemma RoomToSet<V>(st: L.Store<V>, j: L.Key, v: V, at: int, cap: nat)
    requires L.Valid(st) && (|st.order| < cap || (j in st.entries && |st.order| <= cap))
    ensures L.Set(st, j, v, at, cap) == L.Store(L.Touch(st.order, j), st.entries[j := L.Entry(v, at)])
  {
    L.DropElems(st.order, {j});
    if j in st.entries { L.TouchValid(st, j); }
  }

  /** Nor does a set of another key, as long as the local store has room for it or holds it already. */
  lemma SetSparesOthers<V>(t: Tier<V>, j: L.Key, v: V, at: int, cap: nat, sent: Reply, k: L.Key, now: int, ttl: int, got: Reply)
    requires Shaped(t) && k != j && (Live(t) ==> sent == Done)
    requires !Live(t) ==> |t.local.order| < cap || (j in t.local.entries && |t.local.order| <= cap)
    ensures FoundJson(SetJson(t, j, v, at, cap, sent), k, now, ttl, got) == FoundJson(t, k, now, ttl, got)
  {
    if !Live(t) { RoomToSet(t.local, j, v, at, cap); }
  }

  // ---- Runs of calls -------------------------------------------------------------------------------

  predicate Names<V>(call: Call<V>, k: L.Key) {
    !call.ServerForgets? && call.key == k
  }

  ghost predicate Elsewhere<V>(calls: seq<Call<V>>, k: L.Key) {
    forall i :: 0 <= i < |calls| ==> !Names(calls[i], k)
  }

  /** Redis answered every call, and the server did not forget the key. */
  ghost predicate Kept<V>(calls: seq<Call<V>>, k: L.Key) {
    forall i :: 0 <= i < |calls| ==> if calls[i].ServerForgets? then k !in calls[i].keys else calls[i].reply == Done
  }

  ghost predicate Answered<V>(calls: seq<Call<V>>) {
    forall i :: 0 <= i < |calls| ==> calls[i].ServerForgets? || calls[i].reply == Done
  }

  /** While Redis answers, the key stays as it was unless forgotten; after a failure it is nowhere. */
  ghost predicate Remote<V>(t: Tier<V>, k: L.Key, v: V, answered: bool, kept: bool) {
    && Shaped(t)
    && (if answered then Live(t) && (k in t.remote <==> kept) && (k in t.remote ==> t.remote[k] == v)
        else !Live(t) && k !in t.local.entries)
  }

  lemma RemoteStep<V>(t: Tier<V>, call: Call<V>, cap: nat, k: L.Key, v: V, answered: bool, kept: bool)
    requires Remote(t, k, v, answered, kept) && !Names(call, k)
    ensures Remote(Step(t, call, cap), k, v, answered && (call.ServerForgets? || call.reply == Done),
                   kept && (if call.ServerForgets? then k !in call.keys else call.reply == Done))
  {
    match call
    case GetCall(j, at, age, reply) =>
      L.RemoveValid(t.local, j);
      L.TouchElems(t.local.order, j);
    case SetCall(j, w, at, reply) => L.SetEntries(t.local, j, w, at, cap);
    case InvalidateCall(j, reply) => L.RemoveValid(t.local, j);
    case ServerForgets(keys) =>
  }

  lemma {:induction false} RemoteRun<V>(t: Tier<V>, calls: seq<Call<V>>, cap: nat, k: L.Key, v: V)
    requires Remote(t, k, v, true, true) && Elsewhere(calls, k)
    ensures Remote(Run(t, calls, cap), k, v, Answered(calls), Kept(calls, k))
  {
    if calls != [] {
      var before, last := calls[..|calls| - 1], calls[|calls| - 1];
      RemoteRun(t, before, cap, k, v);
      RemoteStep(Run(t, before, cap), last, cap, k, v, Answered(before), Kept(before, k));
      assert calls == before + [last];
    }
  }

  /** What a call does to the local store. */
  function LocalOp<V>(call: Call<V>): seq<L.Op<V>> {
    match call
    case GetCall(k, now, ttl, _) => [L.GetOp(k, now, ttl)]
    case SetCall(k, v, now, _) => [L.SetOp(k, v, now)]
    case InvalidateCall(k, _) => [L.InvalidateOp(k)]
    case ServerForgets(_) => []
  }

  function LocalOps<V>(calls: seq<Call<V>>): seq<L.Op<V>> {
    if calls == [] then [] else LocalOps(calls[..|calls| - 1]) + LocalOp(calls[|calls| - 1])
  }

  lemma RemoveMissing<V>(st: L.Store<V>, k: L.Key)
    requires L.Valid(st) && k !in st.entries
    ensures L.Remove(st, k) == st
  {
    L.DropNothing(st.order, {k});
    assert st.entries - {k} == st.entries;
  }

  /** A call without Redis is its operation on the local store. */
  lemma OffStep<V>(t: Tier<V>, call: Call<V>, cap: nat)
    requires !Live(t) && L.Valid(t.local)
    ensures var t' := Step(t, call, cap);
            && !Live(t')
            && t'.local == if call.ServerForgets? then t.local else L.Step(t.local, LocalOp(call)[0], cap)
  {
    if call.InvalidateCall? && call.key !in t.local.entries { RemoveMissing(t.local, call.key); }
  }

  lemma StepShaped<V>(st: L.Store<V>, op: L.Op<V>, cap: nat)
    requires L.Valid(st)
    ensures L.Valid(L.Step(st, op, cap))
  {
    match op
    case GetOp(k, now, ttl) =>
      L.RemoveValid(st, k);
      L.TouchElems(st.order, k);
    case SetOp(k, v, now) => L.SetValid(st, k, v, now, cap);
    case InvalidateOp(k) => L.RemoveValid(st, k);
  }

  lemma RunLast<V>(st: L.Store<V>, ops: seq<L.Op<V>>, op: L.Op<V>, cap: nat)
    ensures L.Run(st, ops + [op], cap) == L.Step(L.Run(st, ops, cap), op, cap)
  {
    assert (ops + [op])[..|ops|] == ops;
  }

  /** Without Redis the cache is the local store. */
  lemma {:induction false} OffIsLocal<V>(t: Tier<V>, calls: seq<Call<V>>, cap: nat)
    requires L.Valid(t.local) && !Live(t)
    ensures var t' := Run(t, calls, cap);
            !Live(t') && L.Valid(t'.local) && t'.local == L.Run(t.local, LocalOps(calls), cap)
  {
    if calls != [] {
      var before, last := calls[..|calls| - 1], calls[|calls| - 1];
      OffIsLocal(t, before, cap);
      var mid := Run(t, before, cap);
      OffStep(mid, last, cap);
      if last.ServerForgets? {
        assert LocalOps(before) + [] == LocalOps(before);
      } else {
        var op := LocalOp(last)[0];
        assert LocalOp(last) == [op];
        RunLast(t.local, LocalOps(before), op, cap);
        StepShaped(mid.local, op, cap);
      }
    }
  }

  lemma {:induction false} OpsElsewhere<V>(calls: seq<Call<V>>, k: L.Key)
    requires Elsewhere(calls, k)
    ensures forall i :: 0 <= i < |LocalOps(calls)| ==> LocalOps(calls)[i].key != k
  {
    if calls != [] { OpsElsewhere(calls[..|calls| - 1], k); }
  }

  /** How many other keys the calls use in the local store. */
  function Rivals<V>(t: Tier<V>, calls: seq<Call<V>>, cap: nat): nat {
    |W.Used(t.local, LocalOps(calls), cap)|
  }

  /** No call invalidates an entry of the local store, or finds one expired. */
  ghost predicate NoneRemoved<V>(t: Tier<V>, calls: seq<Call<V>>, cap: nat) {
    W.NothingRemoved(t.local, LocalOps(calls), cap)
  }

  lemma OffFinds<V>(t: Tier<V>, k: L.Key, now: int, ttl: int, got: Reply)
    requires !Live(t)
    ensures FoundJson(t, k, now, ttl, got) == L.Found(t.local, k, now, ttl)
  {
  }

  lemma StoreRetention<V>(st: L.Store<V>, ops: seq<L.Op<V>>, cap: nat, k: L.Key, now: int, ttl: int)
    requires L.Valid(st) && |st.order| <= cap && forall i :: 0 <= i < |ops| ==> ops[i].key != k
    requires st.order != [] && st.order[|st.order| - 1] == k && k in st.entries
    ensures var kept := |W.Used(st, ops, cap)| < cap && now - st.entries[k].stamp <= ttl;
            var found := L.Found(L.Run(st, ops, cap), k, now, ttl);
            && (kept ==> found == Some(st.entries[k].payload))
            && (W.NothingRemoved(st, ops, cap) && !kept ==> found == None)
  {
    W.SurvivesWorkingSet(st, ops, cap, k);
  }

  /** The key used last is found while fewer than `cap` others are used, and its entry is young enough. */
  lemma LocalRetention<V>(t: Tier<V>, calls: seq<Call<V>>, cap: nat, k: L.Key, now: int, ttl: int, got: Reply)
    requires !Live(t) && L.Valid(t.local) && |t.local.order| <= cap && Elsewhere(calls, k)
    requires t.local.order != [] && t.local.order[|t.local.order| - 1] == k && k in t.local.entries
    ensures var entry := t.local.entries[k];
            var found := FoundJson(Run(t, calls, cap), k, now, ttl, got);
            && (Rivals(t, calls, cap) < cap && now - entry.stamp <= ttl ==> found == Some(entry.payload))
            && (NoneRemoved(t, calls, cap) ==>
                  found == if Rivals(t, calls, cap) < cap && now - entry.stamp <= ttl then Some(entry.payload) else None)
  {
    var t' := Run(t, calls, cap);
    OffIsLocal(t, calls, cap);
    OffFinds(t', k, now, ttl, got);
    OpsElsewhere(calls, k);
    StoreRetention(t.local, LocalOps(calls), cap, k, now, ttl);
  }

  lemma SetIsNewest<V>(st: L.Store<V>, k: L.Key, v: V, at: int, cap: nat)
    requires L.Valid(st)
    ensures var st' := L.Set(st, k, v, at, cap);
            && L.Valid(st') && |st'.order| <= cap
            && (cap > 0 ==> st'.order != [] && st'.order[|st'.order| - 1] == k
                            && k in st'.entries && st'.entries[k] == L.Entry(v, at))
            && (cap == 0 ==> k !in st'.entries)
  {
    L.SetEntries(st, k, v, at, cap);
    L.SetValid(st, k, v, at, cap);
    var touched := L.Store(L.Touch(st.order, k), st.entries[k := L.Entry(v, at)]);
    L.EvictOrder(touched, cap);
  }

  /**
  The other half of freshness. After a set and any calls on other keys, a lookup finds the payload: with
  Redis in use, exactly when Redis answers them all and keeps the key; without it, when fewer than
  `cap` other keys were used since and the entry is young enough, and, if no entry was removed in
  between, only then.
  */
  lemma LatestIsFound<V>(t: Tier<V>, k: L.Key, v: V, at: int, cap: nat, sent: Reply, calls: seq<Call<V>>,
                         now: int, ttl: int, got: Reply)
    requires Shaped(t) && |t.local.order| <= cap && Elsewhere(calls, k)
    ensures var t1 := SetJson(t, k, v, at, cap, sent);
            var found := FoundJson(Run(t1, calls, cap), k, now, ttl, got);
            if Live(t) && sent == Done then found == if Kept(calls, k) && got == Done then Some(v) else None
            else
              && (Rivals(t1, calls, cap) < cap && now - at <= ttl ==> found == Some(v))
              && (NoneRemoved(t1, calls, cap) ==>
                    found == if Rivals(t1, calls, cap) < cap && now - at <= ttl then Some(v) else None)
  {
    var t1 := SetJson(t, k, v, at, cap, sent);
    if Live(t) && sent == Done {
      RemoteRun(t1, calls, cap, k, v);
    } else {
      SetIsNewest(t.local, k, v, at, cap);
      if cap > 0 {
        LocalRetention(t1, calls, cap, k, now, ttl, got);
      } else {
        OffIsLocal(t1, calls, cap);
        L.RunValid(t1.local, LocalOps(calls), cap);
        NoEntries(Run(t1, calls, cap).local, k);
      }
    }
  }

  lemma NoEntries<V>(st: L.Store<V>, k: L.Key)
    requires L.Valid(st) && |st.order| == 0
    ensures k !in st.entries
  {
    assert st.order == [];
  }
}

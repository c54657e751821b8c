/**
The two-tier JSON cache of app/cache/lru.py: Redis first, and from the first Redis error on, for
good, the in-process store. Redis is an adversary: any call may raise, a failed write or delete may
or may not have taken effect, and the server may forget keys at any time.
*/
module TieredCache {
  import opened Common
  import opened LocalStore

  /** How one Redis call goes. */
  datatype Reply = Done | FailedLost | FailedApplied

  datatype Tier<V> = Tier(configured: bool, off: bool, remote: map<Key, V>, local: Store<V>)

  predicate Live<V>(t: Tier<V>) {
    t.configured && !t.off
  }

  /** The sticky switch: an error of a live Redis turns it off. */
  function AfterReply<V>(t: Tier<V>, reply: Reply): Tier<V> {
    if Live(t) && reply != Done then t.(off := true) else t
  }

  predicate Applied<V>(t: Tier<V>, reply: Reply) {
    Live(t) && reply != FailedLost
  }

  function RemoteFound<V>(t: Tier<V>, k: Key, reply: Reply): Option<V> {
    if Live(t) && reply == Done && k in t.remote then Some(t.remote[k]) else None
  }

  function GetJson<V>(t: Tier<V>, k: Key, now: int, ttl: int, reply: Reply): Tier<V> {
    var t' := AfterReply(t, reply);
    if RemoteFound(t, k, reply).Some? then t' else t'.(local := Get(t.local, k, now, ttl))
  }

  function FoundJson<V>(t: Tier<V>, k: Key, now: int, ttl: int, reply: Reply): Option<V> {
    var remote := RemoteFound(t, k, reply);
    if remote.Some? then remote else Found(t.local, k, now, ttl)
  }

  function SetJson<V>(t: Tier<V>, k: Key, v: V, now: int, cap: nat, reply: Reply): Tier<V> {
    var t' := AfterReply(t, reply).(remote := if Applied(t, reply) then t.remote[k := v] else t.remote);
    if Live(t) && reply == Done then t' else t'.(local := Set(t.local, k, v, now, cap))
  }

  function Invalidate<V>(t: Tier<V>, k: Key, reply: Reply): Tier<V> {
    AfterReply(t, reply).(
      remote := if Applied(t, reply) then t.remote - {k} else t.remote,
      local := if k in t.local.entries then Remove(t.local, k) else t.local)
  }

  /** Keys the Redis server drops on its own: their TTL ran out, or it was short of memory. */
  function Forget<V>(t: Tier<V>, keys: set<Key>): Tier<V> {
    t.(remote := t.remote - keys)
  }

  // ---- The module state, updated in place ------------------------------------------------------

  class JsonCache<V> {
    const configured: bool
    const maxItems: nat
    var redisDisabled: bool
    var order: seq<Key>
    var entries: map<Key, Entry<V>>
    /** What the Redis server holds; changed by this process through its calls only. */
    var remote: map<Key, V>

    ghost function State(): Tier<V>
      reads this
    {
      Tier(configured, redisDisabled, remote, Store(order, entries))
    }

    ghost predicate Consistent()
      reads this
    {
      Valid(State().local) && |order| <= maxItems
    }

    constructor (configured: bool, maxItems: nat)
      ensures this.configured == configured && this.maxItems == maxItems
      ensures State() == Tier(configured, false, map[], Empty()) && Consistent()
    {
      this.configured, this.maxItems := configured, maxItems;
      redisDisabled, order, entries, remote := false, [], map[], map[];
    }

    method RedisGet(key: Key, reply: Reply) returns (found: Option<V>)
      modifies this`redisDisabled
      ensures found == old(RemoteFound(State(), key, reply))
      ensures State() == old(AfterReply(State(), reply))
    {
      if redisDisabled || !configured { return None; }
      if reply != Done {
        redisDisabled := true;
        return None;
      }
      found := if key in remote then Some(remote[key]) else None;
    }

    method RedisSet(key: Key, payload: V, reply: Reply) returns (stored: bool)
      modifies this`redisDisabled, this`remote
      ensures stored == old(Live(State()) && reply == Done)
      ensures State() == old(AfterReply(State(), reply).(
                               remote := if Applied(State(), reply) then remote[key := payload] else remote))
    {
      if redisDisabled || !configured { return false; }
      if reply != FailedLost { remote := remote[key := payload]; }
      if reply == Done { return true; }
      redisDisabled := true;
      stored := false;
    }

    method RedisDelete(key: Key, reply: Reply) returns (deleted: bool)
      modifies this`redisDisabled, this`remote
      ensures deleted == old(Live(State()) && reply == Done)
      ensures State() == old(AfterReply(State(), reply).(
                               remote := if Applied(State(), reply) then remote - {key} else remote))
    {
      if redisDisabled || !configured { return false; }
      if reply != FailedLost { remote := remote - {key}; }
      if reply == Done { return true; }
      redisDisabled := true;
      deleted := false;
    }

    /** `OrderedDict.move_to_end`. */
    method MoveToEnd(key: Key)
      modifies this`order
      ensures order == Touch(old(order), key)
    {
      order := Drop(order, {key}) + [key];
    }

    method GetJsonCache(key: Key, ttl: int, now: int, reply: Reply) returns (found: Option<V>)
      requires Consistent()
      modifies this
      ensures Consistent()
      ensures found == old(FoundJson(State(), key, now, ttl, reply))
      ensures State() == old(GetJson(State(), key, now, ttl, reply))
    {
      ghost var local := State().local;
      StepValid(local, GetOp(key, now, ttl), maxItems);
      found := RedisGet(key, reply);
      if found.Some? { return; }
      if key !in entries { return None; }
      var entry := entries[key];
      if now - entry.stamp > ttl {
        order, entries := Drop(order, {key}), entries - {key};
        return None;
      }
      MoveToEnd(key);
      found := Some(entry.payload);
    }

    method SetJsonCache(key: Key, payload: V, now: int, reply: Reply)
      requires Consistent()
      modifies this
      ensures Consistent()
      ensures State() == old(SetJson(State(), key, payload, now, maxItems, reply))
    {
      ghost var local := State().local;
      StepValid(local, SetOp(key, payload, now), maxItems);
      var stored := RedisSet(key, payload, reply);
      if stored { return; }
      entries := entries[key := Entry(payload, now)];
      MoveToEnd(key);
      while |order| > maxItems
        invariant Evict(Store(order, entries), maxItems) == Set(local, key, payload, now, maxItems)
        invariant State() == old(SetJson(State(), key, payload, now, maxItems, reply)).(local := Store(order, entries))
      {
        entries := entries - {order[0]};
        order := order[1..];
      }
    }

    method InvalidateSummaryCache(clientId: nat, reply: Reply)
      requires Consistent()
      modifies this
      ensures Consistent()
      ensures State() == old(Invalidate(State(), Summary(clientId), reply))
    {
      var key := Summary(clientId);
      RemoveValid(State().local, key);
      var _ := RedisDelete(key, reply);
      if key in entries {
        order, entries := Drop(order, {key}), entries - {key};
      }
    }
  }

  // ---- Freshness -------------------------------------------------------------------------------

  /**
  Every payload a lookup could return is the one `expected` names. While Redis is live the local
  store is empty, so nothing can hide in it and resurface after a failover.
  */
  ghost predicate Coherent<V>(t: Tier<V>, expected: map<Key, Entry<V>>) {
    && Valid(t.local)
    && (Live(t) ==> t.local == Empty())
    && (Live(t) ==> forall k :: k in t.remote ==> k in expected && t.remote[k] == expected[k].payload)
    && (forall k :: k in t.local.entries ==> k in expected && t.local.entries[k] == expected[k])
  }

  lemma GetCoherent<V>(t: Tier<V>, expected: map<Key, Entry<V>>, k: Key, now: int, ttl: int, reply: Reply)
    requires Coherent(t, expected)
    ensures Coherent(GetJson(t, k, now, ttl, reply), expected)
    ensures FoundJson(t, k, now, ttl, reply).Some? ==>
              k in expected && FoundJson(t, k, now, ttl, reply).value == expected[k].payload
    ensures FoundJson(t, k, now, ttl, reply).Some? && !Live(t) ==> now - expected[k].stamp <= ttl
  {
    RemoveValid(t.local, k);
    TouchElems(t.local.order, k);
  }

  lemma SetCoherent<V>(t: Tier<V>, expected: map<Key, Entry<V>>, k: Key, v: V, now: int, cap: nat, reply: Reply)
    requires Coherent(t, expected)
    ensures Coherent(SetJson(t, k, v, now, cap, reply), expected[k := Entry(v, now)])
  {
    SetEntries(t.local, k, v, now, cap);
  }

  lemma InvalidateCoherent<V>(t: Tier<V>, expected: map<Key, Entry<V>>, k: Key, reply: Reply)
    requires Coherent(t, expected)
    ensures Coherent(Invalidate(t, k, reply), expected - {k})
  {
    RemoveValid(t.local, k);
  }

  datatype Call<V> =
    | GetCall(key: Key, now: int, ttl: int, reply: Reply)
    | SetCall(key: Key, payload: V, now: int, reply: Reply)
    | InvalidateCall(key: Key, reply: Reply)
    | ServerForgets(keys: set<Key>)

  function Step<V>(t: Tier<V>, call: Call<V>, cap: nat): Tier<V> {
    match call
    case GetCall(k, now, ttl, reply) => GetJson(t, k, now, ttl, reply)
    case SetCall(k, v, now, reply) => SetJson(t, k, v, now, cap, reply)
    case InvalidateCall(k, reply) => Invalidate(t, k, reply)
    case ServerForgets(keys) => Forget(t, keys)
  }

  function Run<V>(t: Tier<V>, calls: seq<Call<V>>, cap: nat): Tier<V> {
    if calls == [] then t
    else Step(Run(t, calls[..|calls| - 1], cap), calls[|calls| - 1], cap)
  }

  /** The latest set of each key with no invalidation after it. */
  function Latest<V>(calls: seq<Call<V>>): map<Key, Entry<V>> {
    if calls == [] then map[]
    else
      var before := Latest(calls[..|calls| - 1]);
      match calls[|calls| - 1]
      case SetCall(k, v, now, _) => before[k := Entry(v, now)]
      case InvalidateCall(k, _) => before - {k}
      case _ => before
  }

  function Fresh<V>(configured: bool): Tier<V> {
    Tier(configured, false, map[], Empty())
  }

  lemma {:induction false} RunCoherent<V>(calls: seq<Call<V>>, configured: bool, cap: nat)
    ensures Coherent(Run(Fresh(configured), calls, cap), Latest(calls))
  {
    if calls != [] {
      var before := calls[..|calls| - 1];
      RunCoherent(before, configured, cap);
      var t, expected := Run(Fresh(configured), before, cap), Latest(before);
      match calls[|calls| - 1]
      case GetCall(k, now, ttl, reply) => GetCoherent(t, expected, k, now, ttl, reply);
      case SetCall(k, v, now, reply) => SetCoherent(t, expected, k, v, now, cap, reply);
      case InvalidateCall(k, reply) => InvalidateCoherent(t, expected, k, reply);
      case ServerForgets(keys) =>
    }
  }

  /**
  After any sequence of calls, whatever Redis did to them, a lookup returns nothing or the payload
  of the latest set of that key with no invalidation after it; once Redis is off, it is moreover no
  older than the TTL.
  */
  lemma NeverStale<V>(calls: seq<Call<V>>, configured: bool, cap: nat, k: Key, now: int, ttl: int, reply: Reply)
    ensures var t := Run(Fresh<V>(configured), calls, cap);
            var found := FoundJson(t, k, now, ttl, reply);
            found.Some? ==>
              && k in Latest(calls) && found.value == Latest(calls)[k].payload
              && (!Live(t) ==> now - Latest(calls)[k].stamp <= ttl)
  {
    RunCoherent(calls, configured, cap);
    GetCoherent(Run(Fresh<V>(configured), calls, cap), Latest(calls), k, now, ttl, reply);
  }

  /** Failover is for good: entries appear in the local store only once Redis is out of use forever. */
  lemma {:induction false} FailoverIsSticky<V>(calls: seq<Call<V>>, more: seq<Call<V>>, configured: bool, cap: nat)
    ensures var t := Run(Fresh<V>(configured), calls, cap);
            t.local.entries != map[] ==> !Live(Run(t, more, cap))
  {
    var t := Run(Fresh<V>(configured), calls, cap);
    RunCoherent(calls, configured, cap);
    if more != [] {
      FailoverIsSticky(calls, more[..|more| - 1], configured, cap);
    }
  }

  /**
  Exactly when the value just set is found again: by a live Redis when both calls succeed and the
  server kept the key, by the local store when there is room and the TTL has not passed.
  */
  lemma SetThenGet<V>(t: Tier<V>, k: Key, v: V, now: int, cap: nat, sent: Reply,
                      lost: set<Key>, now': int, ttl: int, got: Reply)
    requires Valid(t.local) && (Live(t) ==> t.local == Empty())
    ensures var found := FoundJson(Forget(SetJson(t, k, v, now, cap, sent), lost), k, now', ttl, got);
            && found in {None, Some(v)}
            && (found == Some(v) <==>
                if Live(t) && sent == Done then got == Done && k !in lost
                else cap > 0 && now' - now <= ttl)
  {
    SetEntries(t.local, k, v, now, cap);
  }
}

/**
The in-process cache of app/cache/lru.py as values: an OrderedDict is the order of its keys, oldest
first, with an entry for each. A run of calls is a sequence of operations, each with the clock it
reads.
*/
module LocalStore {
  import opened Common

  /** Cache keys are collision-free: a summary key per client, and digests of search requests. */
  datatype Key = Summary(clientId: nat) | Search(digest: string)

  datatype Entry<+V> = Entry(payload: V, stamp: int)

  datatype Store<V> = Store(order: seq<Key>, entries: map<Key, Entry<V>>)

  ghost predicate Valid<V>(st: Store<V>) {
    Distinct(st.order) && Elems(st.order) == st.entries.Keys
  }

  function Empty<V>(): Store<V> {
    Store([], map[])
  }

  /** The order without the keys in `gone`. */
  function Drop(order: seq<Key>, gone: set<Key>): seq<Key> {
    if order == [] then []
    else if order[0] in gone then Drop(order[1..], gone)
    else [order[0]] + Drop(order[1..], gone)
  }

  /** `move_to_end`, also for a key that is new. */
  function Touch(order: seq<Key>, k: Key): seq<Key> {
    Drop(order, {k}) + [k]
  }

  function Remove<V>(st: Store<V>, k: Key): Store<V> {
    Store(Drop(st.order, {k}), st.entries - {k})
  }

  function Evict<V>(st: Store<V>, cap: nat): Store<V>
    decreases |st.order|
  {
    if |st.order| > cap then
      Evict(Store(st.order[1..], st.entries - {st.order[0]}), cap)
    else st
  }

  predicate Expired<V>(e: Entry<V>, now: int, ttl: int) {
    now - e.stamp > ttl
  }

  predicate Hit<V>(st: Store<V>, k: Key, now: int, ttl: int) {
    k in st.entries && !Expired(st.entries[k], now, ttl)
  }

  function Get<V>(st: Store<V>, k: Key, now: int, ttl: int): Store<V> {
    if k !in st.entries then st
    else if Expired(st.entries[k], now, ttl) then Remove(st, k)
    else Store(Touch(st.order, k), st.entries)
  }

  function Found<V>(st: Store<V>, k: Key, now: int, ttl: int): Option<V> {
    if Hit(st, k, now, ttl) then Some(st.entries[k].payload) else None
  }

  function Set<V>(st: Store<V>, k: Key, v: V, now: int, cap: nat): Store<V> {
    Evict(Store(Touch(st.order, k), st.entries[k := Entry(v, now)]), cap)
  }

  datatype Op<V> =
    | GetOp(key: Key, now: int, ttl: int)
    | SetOp(key: Key, payload: V, now: int)
    | InvalidateOp(key: Key)

  function Step<V>(st: Store<V>, op: Op<V>, cap: nat): Store<V> {
    match op
    case GetOp(k, now, ttl) => Get(st, k, now, ttl)
    case SetOp(k, v, now) => Set(st, k, v, now, cap)
    case InvalidateOp(k) => Remove(st, k)
  }

  function Run<V>(st: Store<V>, ops: seq<Op<V>>, cap: nat): Store<V> {
    if ops == [] then st
    else Step(Run(st, ops[..|ops| - 1], cap), ops[|ops| - 1], cap)
  }

  // ---- The algebra of Drop -----------------------------------------------------------------

  lemma {:induction false} DropConcat(a: seq<Key>, b: seq<Key>, gone: set<Key>)
    ensures Drop(a + b, gone) == Drop(a, gone) + Drop(b, gone)
  {
    if a == [] {
      assert a + b == b;
    } else {
      assert (a + b)[1..] == a[1..] + b;
      DropConcat(a[1..], b, gone);
    }
  }

  lemma {:induction false} DropDrop(o: seq<Key>, a: set<Key>, b: set<Key>)
    ensures Drop(Drop(o, a), b) == Drop(o, a + b)
  {
    if o != [] {
      DropDrop(o[1..], a, b);
      if o[0] !in a {
        assert Drop(o, a)[1..] == Drop(o[1..], a);
      }
    }
  }

  lemma {:induction false} DropElems(o: seq<Key>, gone: set<Key>)
    ensures Elems(Drop(o, gone)) == Elems(o) - gone
    ensures Distinct(o) ==> Distinct(Drop(o, gone))
    ensures |Drop(o, gone)| <= |o|
  {
    if o != [] {
      DropElems(o[1..], gone);
      assert Elems(o) == {o[0]} + Elems(o[1..]);
      var rest := Drop(o[1..], gone);
      assert Elems([o[0]] + rest) == {o[0]} + Elems(rest);
      if Distinct(o) {
        assert o[0] !in Elems(o[1..]);
        assert o[0] !in Elems(rest);
      }
    }
  }

  lemma {:induction false} DropNothing(o: seq<Key>, gone: set<Key>)
    requires Elems(o) !! gone
    ensures Drop(o, gone) == o
  {
    if o != [] {
      assert o[0] in Elems(o);
      assert Elems(o[1..]) <= Elems(o);
      DropNothing(o[1..], gone);
    }
  }

  /** Only the part of `gone` that occurs in the order matters. */
  lemma {:induction false} DropRelevant(o: seq<Key>, a: set<Key>, b: set<Key>)
    requires a * Elems(o) == b * Elems(o)
    ensures Drop(o, a) == Drop(o, b)
  {
    if o != [] {
      assert o[0] in Elems(o) && Elems(o[1..]) <= Elems(o);
      assert a * Elems(o[1..]) == a * Elems(o) * Elems(o[1..]) == b * Elems(o[1..]);
      assert o[0] in a <==> o[0] in a * Elems(o);
      assert o[0] in b <==> o[0] in b * Elems(o);
      DropRelevant(o[1..], a, b);
    }
  }

  /** What a lookup leaves: an expired entry is gone, a live one is the newest, the others stay as they are. */
  lemma GetMeaning<V>(st: Store<V>, k: Key, now: int, ttl: int)
    requires Valid(st)
    ensures var st' := Get(st, k, now, ttl);
            && (forall j :: j in st'.entries <==> j in st.entries && (j == k ==> now - st.entries[k].stamp <= ttl))
            && (forall j :: j in st'.entries ==> st'.entries[j] == st.entries[j])
            && (k in st'.entries ==> st'.order != [] && st'.order[|st'.order| - 1] == k)
            && (k !in st.entries ==> st' == st)
  {
  }

  // ---- Every operation keeps the store well formed and within its capacity -------------------

  lemma TouchElems(o: seq<Key>, k: Key)
    ensures Elems(Touch(o, k)) == Elems(o) + {k}
    ensures Distinct(o) ==> Distinct(Touch(o, k))
  {
    DropElems(o, {k});
    assert Elems(Touch(o, k)) == Elems(Drop(o, {k})) + {k};
    assert k !in Elems(Drop(o, {k}));
  }

  lemma RemoveValid<V>(st: Store<V>, k: Key)
    requires Valid(st)
    ensures Valid(Remove(st, k)) && |Remove(st, k).order| <= |st.order|
  {
    DropElems(st.order, {k});
  }

  lemma {:induction false} EvictOrder<V>(st: Store<V>, cap: nat)
    ensures |Evict(st, cap).order| == Min(|st.order|, cap)
    ensures Evict(st, cap).order == st.order[|st.order| - Min(|st.order|, cap)..]
    decreases |st.order|
  {
    if |st.order| > cap {
      EvictOrder(Store(st.order[1..], st.entries - {st.order[0]}), cap);
    }
  }

  lemma PopValid<V>(st: Store<V>)
    requires Valid(st) && st.order != []
    ensures Valid(Store(st.order[1..], st.entries - {st.order[0]}))
  {
    var rest := st.order[1..];
    assert st.order == [st.order[0]] + rest;
    assert Elems(st.order) == {st.order[0]} + Elems(rest);
    assert st.order[0] !in rest;
  }

  lemma {:induction false} EvictEntries<V>(st: Store<V>, cap: nat)
    requires Valid(st)
    ensures Valid(Evict(st, cap))
    ensures Evict(st, cap).entries.Keys <= st.entries.Keys
    ensures forall k :: k in Evict(st, cap).entries ==> Evict(st, cap).entries[k] == st.entries[k]
    decreases |st.order|
  {
    if |st.order| > cap {
      PopValid(st);
      EvictEntries(Store(st.order[1..], st.entries - {st.order[0]}), cap);
    }
  }

  /** What a set leaves behind: old entries or the new one, and the new one whenever there is room. */
  lemma SetEntries<V>(st: Store<V>, k: Key, v: V, now: int, cap: nat)
    requires Valid(st)
    ensures Valid(Set(st, k, v, now, cap))
    ensures forall j :: j in Set(st, k, v, now, cap).entries ==>
                          if j == k then Set(st, k, v, now, cap).entries[j] == Entry(v, now)
                          else j in st.entries && Set(st, k, v, now, cap).entries[j] == st.entries[j]
    ensures k in Set(st, k, v, now, cap).entries <==> cap > 0
  {
    TouchElems(st.order, k);
    var touched := Store(Touch(st.order, k), st.entries[k := Entry(v, now)]);
    EvictOrder(touched, cap);
    EvictEntries(touched, cap);
    var e := Evict(touched, cap);
    if cap > 0 {
      assert touched.order[|touched.order| - 1] == k;
      assert e.order[|e.order| - 1] == k;
      assert k in Elems(e.order);
    } else {
      assert e.order == [];
      assert e.entries.Keys == {};
    }
  }

  lemma TouchValid<V>(st: Store<V>, k: Key)
    requires Valid(st) && k in st.entries
    ensures Valid(Store(Touch(st.order, k), st.entries)) && |Touch(st.order, k)| == |st.order|
  {
    TouchElems(st.order, k);
    DistinctCard(Touch(st.order, k));
    DistinctCard(st.order);
  }

  lemma SetValid<V>(st: Store<V>, k: Key, v: V, now: int, cap: nat)
    requires Valid(st)
    ensures Valid(Set(st, k, v, now, cap)) && |Set(st, k, v, now, cap).order| <= cap
  {
    TouchElems(st.order, k);
    var touched := Store(Touch(st.order, k), st.entries[k := Entry(v, now)]);
    EvictOrder(touched, cap);
    EvictEntries(touched, cap);
  }

  lemma StepValid<V>(st: Store<V>, op: Op<V>, cap: nat)
    requires Valid(st) && |st.order| <= cap
    ensures Valid(Step(st, op, cap)) && |Step(st, op, cap).order| <= cap
  {
    match op
    case GetOp(k, now, ttl) =>
      RemoveValid(st, k);
      if k in st.entries { TouchValid(st, k); }
    case SetOp(k, v, now) => SetValid(st, k, v, now, cap);
    case InvalidateOp(k) => RemoveValid(st, k);
  }

  lemma {:induction false} RunValid<V>(st: Store<V>, ops: seq<Op<V>>, cap: nat)
    requires Valid(st) && |st.order| <= cap
    ensures Valid(Run(st, ops, cap)) && |Run(st, ops, cap).order| <= cap
  {
    if ops != [] {
      RunValid(st, ops[..|ops| - 1], cap);
      StepValid(Run(st, ops[..|ops| - 1], cap), ops[|ops| - 1], cap);
    }
  }
}

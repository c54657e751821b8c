/**
LRU inclusion: driven by the same timed calls, the store with the smaller capacity always holds a
subset of the entries of the larger one, so more capacity never turns a hit into a miss.
*/
module LruInclusion {
  import opened Common
  import opened LocalStore

  /**
  The two orders rank their common keys alike; `x` are the keys only the larger store holds, at
  most as many as it has extra capacity.
  */
  ghost predicate Ranked(o: seq<Key>, o': seq<Key>, x: set<Key>, c: nat, c': nat) {
    && Distinct(o')
    && x <= Elems(o')
    && o == Drop(o', x)
    && |o| <= c && |o'| <= c'
    && |o'| - |o| == |x| <= c' - c
  }

  ghost predicate Agree<V>(small: map<Key, Entry<V>>, big: map<Key, Entry<V>>) {
    forall k :: k in small ==> k in big && small[k] == big[k]
  }

  /** The inductive invariant. */
  ghost predicate Included<V>(small: Store<V>, big: Store<V>, c: nat, c': nat) {
    && Valid(small) && Valid(big)
    && Agree(small.entries, big.entries)
    && exists x :: Ranked(small.order, big.order, x, c, c')
  }

  // ---- The orders ---------------------------------------------------------------------------

  lemma DropSize(o: seq<Key>, x: set<Key>)
    requires Distinct(o) && x <= Elems(o)
    ensures |Drop(o, x)| == |o| - |x|
  {
    DropElems(o, x);
    DistinctCard(o);
    DistinctCard(Drop(o, x));
    SubsetCard(x, Elems(o));
  }

  lemma RankedRemove(o: seq<Key>, o': seq<Key>, x: set<Key>, k: Key, c: nat, c': nat)
    requires Ranked(o, o', x, c, c')
    ensures Ranked(Drop(o, {k}), Drop(o', {k}), x - {k}, c, c')
  {
    DropElems(o, {k});
    DropElems(o', {k});
    DropDrop(o', x, {k});
    DropDrop(o', {k}, x - {k});
    assert x + {k} == {k} + (x - {k});
    DropSize(Drop(o', {k}), x - {k});
    SubsetCard(x - {k}, x);
  }

  /** `k` is moved to the end of both orders; afterwards both hold it. */
  lemma RankedTouch(o: seq<Key>, o': seq<Key>, x: set<Key>, k: Key, c: nat, c': nat)
    requires Ranked(o, o', x, c, c')
    ensures Ranked(Touch(o, k), Touch(o', k), x - {k}, c + 1, c' + 1)
    ensures k in o ==> |Touch(o, k)| == |o|
    ensures k in o' ==> |Touch(o', k)| == |o'|
  {
    RankedRemove(o, o', x, k, c, c');
    TouchElems(o', k);
    DropElems(o', {k});
    DropConcat(Drop(o', {k}), [k], x - {k});
    DropElems(o', x);
    if k in o' { DropSize(o', {k}); }
    if k in o { DropSize(o, {k}); }
  }

  /** `k` is moved to the end of the larger order only: the smaller store misses it. */
  lemma RankedTouchBig(o: seq<Key>, o': seq<Key>, x: set<Key>, k: Key, c: nat, c': nat)
    requires Ranked(o, o', x, c, c') && k in x
    ensures Ranked(o, Touch(o', k), x, c, c')
  {
    TouchElems(o', k);
    DropConcat(Drop(o', {k}), [k], x);
    DropDrop(o', {k}, x);
    assert {k} + x == x;
    DropSize(o', {k});
  }

  /** Popping the front of the smaller order is dropping one more key from the larger one. */
  lemma FrontBecomesExtra(o: seq<Key>, o': seq<Key>, x: set<Key>)
    requires Distinct(o') && o == Drop(o', x) && o != []
    ensures Drop(o', x + {o[0]}) == o[1..]
    ensures o[0] in o' && o[0] !in x
  {
    DropElems(o', x);
    assert o[0] in Elems(o);
    DropDrop(o', x, {o[0]});
    assert o == [o[0]] + o[1..];
    DropNothing(o[1..], {o[0]});
  }

  function Last(o: seq<Key>, cap: nat): seq<Key> {
    o[|o| - Min(|o|, cap)..]
  }

  lemma PopExtra(o: seq<Key>, rest: seq<Key>, p: Key, x: set<Key>) returns (y: set<Key>)
    requires Distinct([p] + rest) && p in x && x <= Elems([p] + rest)
    requires o == Drop([p] + rest, x) && o != []
    ensures y <= Elems(rest) && o[1..] == Drop(rest, y) && |y| == |x|
  {
    assert Elems([p] + rest) == {p} + Elems(rest) && p !in Elems(rest) by {
      assert forall i :: 0 <= i < |rest| ==> ([p] + rest)[i + 1] == rest[i];
    }
    FrontBecomesExtra(o, rest, x);
    y := x - {p} + {o[0]};
    DropRelevant(rest, x + {o[0]}, y);
  }

  lemma PopCommon(o: seq<Key>, rest: seq<Key>, p: Key, x: set<Key>)
    requires p !in x && x <= Elems([p] + rest) && o == Drop([p] + rest, x)
    ensures x <= Elems(rest) && o[1..] == Drop(rest, x)
  {
    assert Elems([p] + rest) == {p} + Elems(rest);
    assert o == [p] + Drop(rest, x);
  }

  /** Both stores are over capacity: each pops its own oldest key. */
  lemma RankedPopBoth(o: seq<Key>, o': seq<Key>, x: set<Key>, c: nat, c': nat) returns (y: set<Key>)
    requires c <= c' && Ranked(o, o', x, c + 1, c' + 1) && |o'| == c' + 1
    ensures |o| == c + 1 && Ranked(o[1..], o'[1..], y, c, c')
  {
    assert o' == [o'[0]] + o'[1..];
    if o'[0] in x {
      y := PopExtra(o, o'[1..], o'[0], x);
    } else {
      PopCommon(o, o'[1..], o'[0], x);
      y := x;
    }
  }

  lemma RankedPopSmall(o: seq<Key>, o': seq<Key>, x: set<Key>, c: nat, c': nat)
    requires c <= c' && Ranked(o, o', x, c + 1, c' + 1) && |o'| <= c' && |o| == c + 1
    ensures Ranked(o[1..], o', x + {o[0]}, c, c')
  {
    FrontBecomesExtra(o, o', x);
  }

  /** Evicting from both orders right after a set: the one step where the capacities differ. */
  lemma RankedEvict(o: seq<Key>, o': seq<Key>, x: set<Key>, c: nat, c': nat) returns (y: set<Key>)
    requires c <= c' && Ranked(o, o', x, c + 1, c' + 1)
    ensures Ranked(Last(o, c), Last(o', c'), y, c, c')
  {
    if |o'| == c' + 1 {
      y := RankedPopBoth(o, o', x, c, c');
    } else if |o| == c + 1 {
      RankedPopSmall(o, o', x, c, c');
      y := x + {o[0]};
    } else {
      y := x;
    }
  }

  // ---- The stores ---------------------------------------------------------------------------

  lemma RemoveIncluded<V>(small: Store<V>, big: Store<V>, k: Key, c: nat, c': nat)
    requires Included(small, big, c, c')
    ensures Included(Remove(small, k), Remove(big, k), c, c')
  {
    RemoveValid(small, k);
    RemoveValid(big, k);
    var x :| Ranked(small.order, big.order, x, c, c');
    RankedRemove(small.order, big.order, x, k, c, c');
  }

  lemma GetIncluded<V>(small: Store<V>, big: Store<V>, k: Key, now: int, ttl: int, c: nat, c': nat)
    requires Included(small, big, c, c')
    ensures Included(Get(small, k, now, ttl), Get(big, k, now, ttl), c, c')
    ensures Hit(small, k, now, ttl) ==> Found(small, k, now, ttl) == Found(big, k, now, ttl)
  {
    StepValid(small, GetOp(k, now, ttl), c);
    StepValid(big, GetOp(k, now, ttl), c');
    var x :| Ranked(small.order, big.order, x, c, c');
    assert k in small.order <==> k in small.entries;
    assert k in big.order <==> k in big.entries;
    if k !in big.entries {
    } else if Expired(big.entries[k], now, ttl) {
      RemoveIncluded(small, big, k, c, c');
      if k !in small.entries { RemoveMissing(small, k); }
    } else if k in small.entries {
      RankedTouch(small.order, big.order, x, k, c, c');
      assert Ranked(Touch(small.order, k), Touch(big.order, k), x - {k}, c, c');
    } else {
      DropElems(big.order, x);
      RankedTouchBig(small.order, big.order, x, k, c, c');
    }
  }

  lemma RemoveMissing<V>(st: Store<V>, k: Key)
    requires Valid(st) && k !in st.entries
    ensures Remove(st, k) == st
  {
    DropNothing(st.order, {k});
    assert st.entries - {k} == st.entries;
  }

  lemma SetRanked(o: seq<Key>, o': seq<Key>, x: set<Key>, k: Key, c: nat, c': nat) returns (y: set<Key>)
    requires c <= c' && Ranked(o, o', x, c, c')
    ensures Ranked(Last(Touch(o, k), c), Last(Touch(o', k), c'), y, c, c')
  {
    RankedTouch(o, o', x, k, c, c');
    y := RankedEvict(Touch(o, k), Touch(o', k), x - {k}, c, c');
  }

  lemma SetIncluded<V>(small: Store<V>, big: Store<V>, k: Key, v: V, now: int, c: nat, c': nat)
    requires Included(small, big, c, c') && c <= c'
    ensures Included(Set(small, k, v, now, c), Set(big, k, v, now, c'), c, c')
  {
    var small1 := Store(Touch(small.order, k), small.entries[k := Entry(v, now)]);
    var big1 := Store(Touch(big.order, k), big.entries[k := Entry(v, now)]);
    assert Valid(small1) && Valid(big1) by {
      TouchElems(small.order, k);
      TouchElems(big.order, k);
    }
    var x :| Ranked(small.order, big.order, x, c, c');
    var y := SetRanked(small.order, big.order, x, k, c, c');
    EvictIncluded(small1, big1, y, c, c');
  }

  lemma EvictIncluded<V>(small: Store<V>, big: Store<V>, y: set<Key>, c: nat, c': nat)
    requires Valid(small) && Valid(big) && Agree(small.entries, big.entries)
    requires Ranked(Last(small.order, c), Last(big.order, c'), y, c, c')
    ensures Included(Evict(small, c), Evict(big, c'), c, c')
  {
    EvictOrder(small, c);
    EvictEntries(small, c);
    EvictOrder(big, c');
    EvictEntries(big, c');
    var small', big' := Evict(small, c), Evict(big, c');
    forall k | k in small'.entries ensures k in big'.entries && small'.entries[k] == big'.entries[k] {
      DropElems(big'.order, y);
      assert k in Elems(small'.order);
      assert k in Elems(big'.order);
    }
  }

  lemma StepIncluded<V>(small: Store<V>, big: Store<V>, op: Op<V>, c: nat, c': nat)
    requires Included(small, big, c, c') && c <= c'
    ensures Included(Step(small, op, c), Step(big, op, c'), c, c')
  {
    match op
    case GetOp(k, now, ttl) => GetIncluded(small, big, k, now, ttl, c, c');
    case SetOp(k, v, now) => SetIncluded(small, big, k, v, now, c, c');
    case InvalidateOp(k) => RemoveIncluded(small, big, k, c, c');
  }

  lemma {:induction false} RunIncluded<V>(ops: seq<Op<V>>, c: nat, c': nat)
    requires c <= c'
    ensures Included(Run(Empty(), ops, c), Run(Empty(), ops, c'), c, c')
  {
    if ops == [] {
      assert Ranked([], [], {}, c, c');
    } else {
      var before := ops[..|ops| - 1];
      RunIncluded(before, c, c');
      StepIncluded(Run(Empty(), before, c), Run(Empty(), before, c'), ops[|ops| - 1], c, c');
    }
  }

  /**
  After any run, the smaller store's entries are among the larger one's, and a lookup that hits
  with capacity `c` hits with every larger capacity and finds the same payload.
  */
  lemma MoreCapacityKeepsHits<V>(ops: seq<Op<V>>, k: Key, now: int, ttl: int, c: nat, c': nat)
    requires c <= c'
    ensures Agree(Run(Empty<V>(), ops, c).entries, Run(Empty<V>(), ops, c').entries)
    ensures Hit(Run(Empty<V>(), ops, c), k, now, ttl) ==>
              && Hit(Run(Empty<V>(), ops, c'), k, now, ttl)
              && Found(Run(Empty<V>(), ops, c), k, now, ttl) == Found(Run(Empty<V>(), ops, c'), k, now, ttl)
  {
    RunIncluded<V>(ops, c, c');
    GetIncluded(Run(Empty<V>(), ops, c), Run(Empty<V>(), ops, c'), k, now, ttl, c, c');
  }
}

/**
What the eviction policy promises a caller: the order of the store is the order of last use, and a
key survives exactly as long as fewer than `cap` distinct other keys have been used after it.
*/
module LruWorkingSet {
  import opened Common
  import opened LocalStore

  /** The key an operation uses: the one it sets, or the one it finds. */
  function Uses<V>(st: Store<V>, op: Op<V>): set<Key> {
    match op
    case GetOp(k, now, ttl) => if Hit(st, k, now, ttl) then {k} else {}
    case SetOp(k, _, _) => {k}
    case InvalidateOp(_) => {}
  }

  /** An operation that deletes a stored key: an invalidation, or a lookup of an expired entry. */
  predicate Removes<V>(st: Store<V>, op: Op<V>) {
    op.key in st.entries &&
    match op
    case GetOp(k, now, ttl) => Expired(st.entries[k], now, ttl)
    case SetOp(_, _, _) => false
    case InvalidateOp(_) => true
  }

  function Used<V>(st: Store<V>, ops: seq<Op<V>>, cap: nat): set<Key> {
    if ops == [] then {}
    else
      var before := ops[..|ops| - 1];
      Used(st, before, cap) + Uses(Run(st, before, cap), ops[|ops| - 1])
  }

  ghost predicate NothingRemoved<V>(st: Store<V>, ops: seq<Op<V>>, cap: nat) {
    forall i :: 0 <= i < |ops| ==> !Removes(Run(st, ops[..i], cap), ops[i])
  }

  // ---- Order of last use ----------------------------------------------------------------------

  /** For each key, the position in the run of the last operation that used it. */
  function LastUse<V>(ops: seq<Op<V>>, cap: nat): map<Key, nat> {
    if ops == [] then map[]
    else
      var before := ops[..|ops| - 1];
      var used := Uses(Run(Empty(), before, cap), ops[|ops| - 1]);
      LastUse(before, cap) + map k | k in used :: |before|
  }

  /** `last` increases along the order and stays below `bound`. */
  ghost predicate Ascending(order: seq<Key>, last: map<Key, nat>, bound: nat) {
    order != [] ==>
      && order[0] in last && last[order[0]] < bound
      && (forall k :: k in order[1..] ==> k in last && last[order[0]] < last[k])
      && Ascending(order[1..], last, bound)
  }

  lemma {:induction false} AscendingPairs(order: seq<Key>, last: map<Key, nat>, bound: nat, i: nat, j: nat)
    requires Ascending(order, last, bound) && i < j < |order|
    ensures order[i] in last && order[j] in last && last[order[i]] < last[order[j]] < bound
  {
    AscendingAt(order, last, bound, j);
    if i > 0 {
      AscendingPairs(order[1..], last, bound, i - 1, j - 1);
    } else {
      assert order[1..][j - 1] == order[j];
    }
  }

  lemma {:induction false} AscendingAt(order: seq<Key>, last: map<Key, nat>, bound: nat, j: nat)
    requires Ascending(order, last, bound) && j < |order|
    ensures order[j] in last && last[order[j]] < bound
  {
    if j > 0 { AscendingAt(order[1..], last, bound, j - 1); }
  }

  lemma {:induction false} DropAscending(order: seq<Key>, gone: set<Key>, last: map<Key, nat>, bound: nat)
    requires Ascending(order, last, bound)
    ensures Ascending(Drop(order, gone), last, bound)
  {
    if order != [] {
      DropAscending(order[1..], gone, last, bound);
      DropElems(order[1..], gone);
      var rest := Drop(order[1..], gone);
      assert forall k :: k in rest ==> k in Elems(rest) && k in Elems(order[1..]);
      assert ([order[0]] + rest)[1..] == rest;
    }
  }

  lemma {:induction false} AppendAscending(order: seq<Key>, k: Key, last: map<Key, nat>, bound: nat)
    requires Ascending(order, last, bound) && k !in order
    ensures Ascending(order + [k], last[k := bound], bound + 1)
  {
    if order == [] {
      var one := order + [k];
      assert one[0] == k && |one[1..]| == 0;
      assert Ascending(one[1..], last[k := bound], bound + 1);
    } else {
      assert forall j :: j in order[1..] ==> j in order;
      AppendAscending(order[1..], k, last, bound);
      assert (order + [k])[1..] == order[1..] + [k];
      assert order[0] in order;
    }
  }

  lemma {:induction false} SuffixAscending(order: seq<Key>, cut: nat, last: map<Key, nat>, bound: nat)
    requires Ascending(order, last, bound) && cut <= |order|
    ensures Ascending(order[cut..], last, bound)
  {
    if cut > 0 {
      SuffixAscending(order[1..], cut - 1, last, bound);
      assert order[cut..] == order[1..][cut - 1..];
    }
  }

  lemma {:induction false} WidenAscending(order: seq<Key>, last: map<Key, nat>, bound: nat)
    requires Ascending(order, last, bound)
    ensures Ascending(order, last, bound + 1)
  {
    if order != [] { WidenAscending(order[1..], last, bound); }
  }

  lemma TouchAscending(order: seq<Key>, k: Key, last: map<Key, nat>, bound: nat)
    requires Ascending(order, last, bound)
    ensures Ascending(Touch(order, k), last[k := bound], bound + 1)
  {
    DropAscending(order, {k}, last, bound);
    DropElems(order, {k});
    assert k !in Elems(Drop(order, {k}));
    AppendAscending(Drop(order, {k}), k, last, bound);
  }

  lemma RemoveAscending<V>(st: Store<V>, k: Key, last: map<Key, nat>, bound: nat)
    requires Ascending(st.order, last, bound)
    ensures Ascending(Remove(st, k).order, last, bound + 1)
  {
    DropAscending(st.order, {k}, last, bound);
    WidenAscending(Drop(st.order, {k}), last, bound);
  }

  lemma GetAscending<V>(st: Store<V>, k: Key, now: int, ttl: int, last: map<Key, nat>, bound: nat)
    requires Ascending(st.order, last, bound)
    ensures Ascending(Get(st, k, now, ttl).order, if Hit(st, k, now, ttl) then last[k := bound] else last, bound + 1)
  {
    if Hit(st, k, now, ttl) {
      TouchAscending(st.order, k, last, bound);
    } else if k in st.entries {
      RemoveAscending(st, k, last, bound);
    } else {
      WidenAscending(st.order, last, bound);
    }
  }

  lemma EvictAscending<V>(st: Store<V>, cap: nat, last: map<Key, nat>, bound: nat)
    requires Valid(st) && Ascending(st.order, last, bound)
    ensures Ascending(Evict(st, cap).order, last, bound)
  {
    EvictOrder(st, cap);
    EvictEntries(st, cap);
    SuffixAscending(st.order, |st.order| - Min(|st.order|, cap), last, bound);
  }

  lemma SetAscending<V>(st: Store<V>, k: Key, v: V, now: int, cap: nat, last: map<Key, nat>, bound: nat)
    requires Valid(st) && Ascending(st.order, last, bound)
    ensures Ascending(Set(st, k, v, now, cap).order, last[k := bound], bound + 1)
  {
    var touched := Store(Touch(st.order, k), st.entries[k := Entry(v, now)]);
    assert Ascending(touched.order, last[k := bound], bound + 1) by { TouchAscending(st.order, k, last, bound); }
    assert Valid(touched) by { TouchElems(st.order, k); }
    EvictAscending(touched, cap, last[k := bound], bound + 1);
  }

  lemma StepAscending<V>(st: Store<V>, op: Op<V>, cap: nat, last: map<Key, nat>, bound: nat)
    requires Valid(st) && Ascending(st.order, last, bound)
    ensures Ascending(Step(st, op, cap).order,
                      if Uses(st, op) == {} then last else last[op.key := bound], bound + 1)
  {
    match op
    case GetOp(k, now, ttl) => GetAscending(st, k, now, ttl, last, bound);
    case InvalidateOp(k) => RemoveAscending(st, k, last, bound);
    case SetOp(k, v, now) => SetAscending(st, k, v, now, cap, last, bound);
  }

  lemma LastUseStep<V>(ops: seq<Op<V>>, cap: nat)
    requires ops != []
    ensures var before, op := ops[..|ops| - 1], ops[|ops| - 1];
            LastUse(ops, cap) == if Uses(Run(Empty<V>(), before, cap), op) == {} then LastUse(before, cap)
                                 else LastUse(before, cap)[op.key := |before|]
  {
  }

  lemma {:induction false} RunAscending<V>(ops: seq<Op<V>>, cap: nat)
    ensures Ascending(Run(Empty<V>(), ops, cap).order, LastUse(ops, cap), |ops|)
  {
    if ops != [] {
      var before, op := ops[..|ops| - 1], ops[|ops| - 1];
      var st := Run(Empty<V>(), before, cap);
      RunAscending(before, cap);
      RunValid(Empty<V>(), before, cap);
      StepAscending(st, op, cap, LastUse(before, cap), |before|);
      LastUseStep(ops, cap);
    }
  }

  /** In every reachable store the keys stand in the order of their last use. */
  lemma OrderIsLastUse<V>(ops: seq<Op<V>>, cap: nat, i: nat, j: nat)
    requires i < j < |Run(Empty<V>(), ops, cap).order|
    ensures var order, last := Run(Empty<V>(), ops, cap).order, LastUse(ops, cap);
            order[i] in last && order[j] in last && last[order[i]] < last[order[j]]
  {
    RunAscending(ops, cap);
    AscendingPairs(Run(Empty<V>(), ops, cap).order, LastUse(ops, cap), |ops|, i, j);
  }

  // ---- Survival ---------------------------------------------------------------------------------

  /** `k` stands in the order with exactly the keys `newer` after it. */
  ghost predicate Stands(order: seq<Key>, k: Key, pre: seq<Key>, post: seq<Key>) {
    order == pre + [k] + post
  }

  lemma DropStands(order: seq<Key>, k: Key, pre: seq<Key>, post: seq<Key>, j: Key)
    requires Stands(order, k, pre, post) && j != k
    ensures Stands(Drop(order, {j}), k, Drop(pre, {j}), Drop(post, {j}))
  {
    DropConcat(pre + [k], post, {j});
    DropConcat(pre, [k], {j});
  }

  lemma RemoveStands<V>(st: Store<V>, k: Key, pre: seq<Key>, post: seq<Key>, j: Key)
    requires Valid(st) && Stands(st.order, k, pre, post) && j != k
    ensures Stands(Remove(st, j).order, k, Drop(pre, {j}), Drop(post, {j}))
    ensures Elems(Drop(post, {j})) == Elems(post) - {j}
    ensures Distinct(Drop(post, {j}))
  {
    DropStands(st.order, k, pre, post, j);
    DropElems(post, {j});
    assert post == st.order[|pre| + 1..];
  }

  lemma TouchStands<V>(st: Store<V>, k: Key, pre: seq<Key>, post: seq<Key>, j: Key)
    requires Valid(st) && Stands(st.order, k, pre, post) && j != k
    ensures Stands(Touch(st.order, j), k, Drop(pre, {j}), Touch(post, j))
    ensures Elems(Touch(post, j)) == Elems(post) + {j}
    ensures Distinct(Touch(post, j))
  {
    RemoveStands(st, k, pre, post, j);
    TouchElems(post, j);
    assert post == st.order[|pre| + 1..];
    assert Touch(st.order, j) == Drop(pre, {j}) + [k] + Touch(post, j);
  }

  /** A lookup or an invalidation of another key: what it does to the keys newer than `k`. */
  lemma QuietStands<V>(st: Store<V>, op: Op<V>, cap: nat, k: Key, pre: seq<Key>, post: seq<Key>)
    returns (pre': seq<Key>, post': seq<Key>)
    requires Valid(st) && |st.order| <= cap
    requires Stands(st.order, k, pre, post) && op.key != k && !op.SetOp?
    ensures Distinct(post') && Elems(post') <= Elems(post) + Uses(st, op)
    ensures !Removes(st, op) ==> Elems(post') == Elems(post) + Uses(st, op)
    ensures Stands(Step(st, op, cap).order, k, pre', post')
  {
    var j := op.key;
    RemoveStands(st, k, pre, post, j);
    TouchStands(st, k, pre, post, j);
    assert post == st.order[|pre| + 1..];
    if Uses(st, op) == {j} {
      pre', post' := Drop(pre, {j}), Touch(post, j);
    } else if op.InvalidateOp? || Removes(st, op) {
      pre', post' := Drop(pre, {j}), Drop(post, {j});
      assert j !in st.entries ==> j !in Elems(st.order);
    } else {
      pre', post' := pre, post;
    }
  }

  lemma StandsIsStored<V>(st: Store<V>, k: Key, pre: seq<Key>, post: seq<Key>)
    requires Valid(st) && Stands(st.order, k, pre, post)
    ensures k in st.entries && |pre| + 1 + |post| == |st.order|
  {
    assert st.order[|pre|] == k;
  }

  lemma QuietKeepsEntry<V>(st: Store<V>, op: Op<V>, cap: nat, k: Key)
    requires k in st.entries && op.key != k && !op.SetOp?
    ensures k in Step(st, op, cap).entries && Step(st, op, cap).entries[k] == st.entries[k]
  {
  }

  /** One operation on another key: what it does to the keys newer than `k`. */
  lemma StepStands<V>(st: Store<V>, op: Op<V>, cap: nat, k: Key, pre: seq<Key>, post: seq<Key>)
    returns (pre': seq<Key>, post': seq<Key>)
    requires Valid(st) && |st.order| <= cap
    requires Stands(st.order, k, pre, post) && op.key != k
    ensures Distinct(post') && Elems(post') <= Elems(post) + Uses(st, op)
    ensures !Removes(st, op) ==> Elems(post') == Elems(post) + Uses(st, op)
    ensures k in Step(st, op, cap).entries <==> |post'| < cap
    ensures |post'| < cap ==>
              && Stands(Step(st, op, cap).order, k, pre', post')
              && Step(st, op, cap).entries[k] == st.entries[k]
  {
    StandsIsStored(st, k, pre, post);
    if op.SetOp? {
      var j := op.key;
      TouchStands(st, k, pre, post, j);
      TouchElems(st.order, j);
      post' := Touch(post, j);
      pre' := EvictStands(Store(Touch(st.order, j), st.entries[j := Entry(op.payload, op.now)]), cap, k,
                          Drop(pre, {j}), post');
    } else {
      pre', post' := QuietStands(st, op, cap, k, pre, post);
      StepValid(st, op, cap);
      StandsIsStored(Step(st, op, cap), k, pre', post');
      QuietKeepsEntry(st, op, cap, k);
    }
  }

  /** Cutting off the front leaves `k` where it stands, or takes it too. */
  lemma CutStands(order: seq<Key>, k: Key, pre: seq<Key>, post: seq<Key>, cut: nat) returns (pre': seq<Key>)
    requires Distinct(order) && Stands(order, k, pre, post) && cut <= |order|
    ensures k in order[cut..] <==> cut <= |pre|
    ensures cut <= |pre| ==> Stands(order[cut..], k, pre', post)
  {
    assert order[|pre|] == k;
    pre' := if cut <= |pre| then pre[cut..] else [];
    if cut <= |pre| {
      assert order[cut..][|pre| - cut] == k;
      assert order[cut..] == pre' + [k] + post;
    } else {
      assert forall i :: |pre| < i < |order| ==> order[i] != k;
    }
  }

  lemma EvictStands<V>(st: Store<V>, cap: nat, k: Key, pre: seq<Key>, post: seq<Key>)
    returns (pre': seq<Key>)
    requires Valid(st) && Stands(st.order, k, pre, post)
    ensures k in Evict(st, cap).entries <==> |post| < cap
    ensures |post| < cap ==>
              && Stands(Evict(st, cap).order, k, pre', post)
              && Evict(st, cap).entries[k] == st.entries[k]
  {
    EvictOrder(st, cap);
    EvictEntries(st, cap);
    var e, cut := Evict(st, cap), |st.order| - Min(|st.order|, cap);
    pre' := CutStands(st.order, k, pre, post, cut);
    assert k in e.entries <==> k in Elems(e.order);
  }

  /**
  A key that was just used, and is not mentioned again, is still stored with its entry as long as
  fewer than `cap` distinct other keys have been used since; and when nothing was removed in
  between, it is gone as soon as `cap` have.
  */
  lemma {:induction false} SurvivesWorkingSet<V>(st: Store<V>, ops: seq<Op<V>>, cap: nat, k: Key)
    requires Valid(st) && |st.order| <= cap
    requires st.order != [] && st.order[|st.order| - 1] == k
    requires forall i :: 0 <= i < |ops| ==> ops[i].key != k
    ensures |Used(st, ops, cap)| < cap ==>
              k in Run(st, ops, cap).entries && Run(st, ops, cap).entries[k] == st.entries[k]
    ensures NothingRemoved(st, ops, cap) ==>
              (k in Run(st, ops, cap).entries <==> |Used(st, ops, cap)| < cap)
  {
    var _, _ := Survival(st, ops, cap, k);
  }

  lemma {:induction false} Survival<V>(st: Store<V>, ops: seq<Op<V>>, cap: nat, k: Key)
    returns (pre: seq<Key>, post: seq<Key>)
    requires Valid(st) && |st.order| <= cap
    requires st.order != [] && st.order[|st.order| - 1] == k
    requires forall i :: 0 <= i < |ops| ==> ops[i].key != k
    ensures k in Run(st, ops, cap).entries ==>
              && Run(st, ops, cap).entries[k] == st.entries[k]
              && Stands(Run(st, ops, cap).order, k, pre, post)
              && Elems(post) <= Used(st, ops, cap)
              && (NothingRemoved(st, ops, cap) ==> Elems(post) == Used(st, ops, cap) && |Used(st, ops, cap)| < cap)
    ensures k !in Run(st, ops, cap).entries ==> cap <= |Used(st, ops, cap)|
  {
    if ops == [] {
      pre, post := st.order[..|st.order| - 1], [];
      assert k in Elems(st.order);
    } else {
      var before, op := ops[..|ops| - 1], ops[|ops| - 1];
      var mid := Run(st, before, cap);
      assert forall i :: 0 <= i < |before| ==> before[i] == ops[i] && before[..i] == ops[..i];
      assert ops[..|before|] == before;
      pre, post := Survival(st, before, cap, k);
      RunValid(st, before, cap);
      var used, used' := Used(st, before, cap), Used(st, ops, cap);
      SubsetCard(used, used');
      if k in mid.entries {
        pre, post := StepStands(mid, op, cap, k, pre, post);
        DistinctCard(post);
        SubsetCard(Elems(post), used');
      } else {
        StaysOut(mid, op, cap, k);
      }
    }
  }

  lemma StaysOut<V>(st: Store<V>, op: Op<V>, cap: nat, k: Key)
    requires Valid(st) && k !in st.entries && op.key != k
    ensures k !in Step(st, op, cap).entries
  {
    if op.SetOp? {
      TouchElems(st.order, op.key);
      EvictOrder(Store(Touch(st.order, op.key), st.entries[op.key := Entry(op.payload, op.now)]), cap);
      EvictEntries(Store(Touch(st.order, op.key), st.entries[op.key := Entry(op.payload, op.now)]), cap);
    }
  }
}

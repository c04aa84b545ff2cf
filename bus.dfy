/**
 * The hook bus of bus.js: one registry of actions and one of filters, each
 * mapping a tag to the hooks registered under it, in registration order.
 *
 * Callbacks are known by identity (`CallbackId`). What a filter callback does
 * is the parameter `interp`: `interp(id, value, options)` is the value callback
 * `id` returns. What an action callback does is outside the bus; `RunAction`
 * returns the trace of the calls it makes.
 *
 * Priorities are natural numbers: the code files each hook under the index
 * `priority` of a sparse array and walks that array in ascending index order.
 * A priority of 2^32 - 1 or more is not an array index: the hook is stored as
 * an ordinary property, which neither grows the array nor is visited.
 */
module HookBus {
  import opened Wrappers

  type CallbackId = nat

  datatype Hook = Hook(priority: nat, callback: CallbackId)

  /** `hooks.actions` or `hooks.filters`: tag to registered hooks. */
  type Registry = map<string, seq<Hook>>

  /** The priority given to a hook registered without one. */
  const DefaultPriority: nat := 10

  /** Array indices are the integers below 2^32 - 1. */
  const ArrayIndexLimit: nat := 0xFFFF_FFFF

  /** The hooks under `tag`; an absent tag has none. */
  function Registered(r: Registry, tag: string): seq<Hook> {
    if tag in r then r[tag] else []
  }

  // ---------------------------------------------------------------------------
  // Dispatch order: the priority buckets, walked in ascending index order

  /** The bucket at index `p`: the hooks of priority `p`, in registration order. */
  function AtPriority(hooks: seq<Hook>, p: nat): seq<Hook> {
    if hooks == [] then []
    else
      var last := hooks[|hooks| - 1];
      AtPriority(hooks[..|hooks| - 1], p) + (if last.priority == p then [last] else [])
  }

  /**
   * The length of the bucket array: one more than the highest priority that
   * is an array index, 0 when there is none.
   */
  function PriorityBound(hooks: seq<Hook>): nat {
    if hooks == [] then 0
    else
      var m, last := PriorityBound(hooks[..|hooks| - 1]), hooks[|hooks| - 1];
      if last.priority < ArrayIndexLimit && m <= last.priority then last.priority + 1 else m
  }

  /** The buckets `0 .. n-1`, concatenated. */
  function OrderBelow(hooks: seq<Hook>, n: nat): seq<Hook> {
    if n == 0 then [] else OrderBelow(hooks, n - 1) + AtPriority(hooks, n - 1)
  }

  /** The order in which `runAction` and `applyFilters` visit the hooks. */
  function Order(hooks: seq<Hook>): seq<Hook> {
    OrderBelow(hooks, PriorityBound(hooks))
  }

  /** The callbacks of a bucket, as the bucket array stores them. */
  function Callbacks(hooks: seq<Hook>): (r: seq<CallbackId>)
    ensures |r| == |hooks|
    ensures forall i :: 0 <= i < |hooks| ==> r[i] == hooks[i].callback
  {
    seq(|hooks|, i requires 0 <= i < |hooks| => hooks[i].callback)
  }

  /** `value = callback(value, options)` for each hook in turn. */
  function Chain<V, O>(hooks: seq<Hook>, value: V, options: O, interp: (CallbackId, V, O) -> V): V {
    if hooks == [] then value
    else
      var last := hooks[|hooks| - 1];
      interp(last.callback, Chain(hooks[..|hooks| - 1], value, options, interp), options)
  }

  /** What `applyFilters(tag, value, options)` returns for a registry of filters. */
  function ApplyFiltersResult<V, O>(filters: Registry, tag: string, value: V, options: O,
                                    interp: (CallbackId, V, O) -> V): V {
    Chain(Order(Registered(filters, tag)), value, options, interp)
  }

  predicate SortedByPriority(hooks: seq<Hook>) {
    forall i, j :: 0 <= i < j < |hooks| ==> hooks[i].priority <= hooks[j].priority
  }

  // ---------------------------------------------------------------------------
  // Removal: `splice(i, 1)` inside `forEach`

  /**
   * What is left after the `forEach` loop of `removeAction`/`removeFilter`.
   * Splicing out the entry at index `i` moves the next entry to index `i`,
   * which the loop has already passed: that entry is never examined and stays.
   */
  function SpliceRemove(hooks: seq<Hook>, callback: CallbackId): seq<Hook>
    decreases |hooks|
  {
    if hooks == [] then []
    else if hooks[0].callback == callback then
      if |hooks| >= 2 then [hooks[1]] + SpliceRemove(hooks[2..], callback) else []
    else [hooks[0]] + SpliceRemove(hooks[1..], callback)
  }

  /** The hooks whose callback is not `callback`, in their original order. */
  function Without(hooks: seq<Hook>, callback: CallbackId): seq<Hook>
    decreases |hooks|
  {
    if hooks == [] then []
    else (if hooks[0].callback == callback then [] else [hooks[0]]) + Without(hooks[1..], callback)
  }

  /** No two adjacent entries both carry `callback`. */
  predicate NoAdjacentMatches(hooks: seq<Hook>, callback: CallbackId) {
    forall i :: 0 <= i < |hooks| - 1 ==> !(hooks[i].callback == callback && hooks[i + 1].callback == callback)
  }

  /** The removal loop's view after visiting indices `0 .. i-1` of the current list `r`. */
  function SplicePending(r: seq<Hook>, i: nat, callback: CallbackId): seq<Hook> {
    if i <= |r| then r[..i] + SpliceRemove(r[i..], callback) else r
  }

  /** One pass of the `forEach` callback leaves the loop's view unchanged. */
  lemma SpliceStep(r: seq<Hook>, i: nat, callback: CallbackId)
    ensures i < |r| && r[i].callback == callback ==>
              SplicePending(r[..i] + r[i + 1..], i + 1, callback) == SplicePending(r, i, callback)
    ensures !(i < |r| && r[i].callback == callback) ==>
              SplicePending(r, i + 1, callback) == SplicePending(r, i, callback)
  {
    if i < |r| {
      var rest := r[i..];
      assert rest[0] == r[i] && rest[1..] == r[i + 1..];
      if r[i].callback == callback {
        var r' := r[..i] + r[i + 1..];
        if |r| >= i + 2 {
          assert rest[1] == r[i + 1] && rest[2..] == r[i + 2..];
          assert r'[..i + 1] == r[..i] + [r[i + 1]];
          assert r'[i + 1..] == r[i + 2..];
        } else {
          assert r' == r[..i];
        }
      } else {
        assert r[..i + 1] == r[..i] + [r[i]];
      }
    } else if i == |r| {
      assert r[..i] == r;
    }
  }

  /** The `forEach` loop with its `splice`, over the list registered under one tag. */
  method SpliceDuringForEach(list: seq<Hook>, callback: CallbackId) returns (r: seq<Hook>)
    ensures r == SpliceRemove(list, callback)
  {
    r := list;
    var length := |list|;  // `forEach` fixes the length before the first call
    var i := 0;
    assert r[..0] + r[0..] == r;
    while i < length
      invariant i <= length && |r| <= length
      invariant SplicePending(r, i, callback) == SpliceRemove(list, callback)
    {
      SpliceStep(r, i, callback);
      // an index the shrunken array no longer has is skipped
      if i < |r| && r[i].callback == callback {
        r := r[..i] + r[i + 1..];
      }
      i := i + 1;
    }
    if i <= |r| {
      assert r[..i] == r && r[i..] == [];
    }
  }

  /** One bucket of `runAction`: calls its callbacks in order, extending the trace `calls`. */
  method RunBucket<O>(bucket: seq<CallbackId>, ghost done: seq<Hook>, ghost here: seq<Hook>,
                      calls: seq<(CallbackId, O)>, options: O) returns (after: seq<(CallbackId, O)>)
    requires bucket == Callbacks(here)
    requires calls == Invocations(done, options)
    ensures after == Invocations(done + here, options)
  {
    after := calls;
    var j := 0;
    while j < |bucket|
      invariant j <= |bucket|
      invariant after == Invocations(done + here[..j], options)
    {
      assert done + here[..j + 1] == (done + here[..j]) + [here[j]];
      InvocationsAppend(done + here[..j], here[j], options);
      after := after + [(bucket[j], options)];
      j := j + 1;
    }
    assert here[..j] == here;
  }

  /** One bucket of `applyFilters`: each callback maps the running value to the next. */
  method FilterBucket<V, O>(bucket: seq<CallbackId>, ghost done: seq<Hook>, ghost here: seq<Hook>,
                            acc: V, value: V, options: O, interp: (CallbackId, V, O) -> V) returns (r: V)
    requires bucket == Callbacks(here)
    requires acc == Chain(done, value, options, interp)
    ensures r == Chain(done + here, value, options, interp)
  {
    r := acc;
    var j := 0;
    assert done + here[..0] == done;
    while j < |bucket|
      invariant j <= |bucket|
      invariant r == Chain(done + here[..j], value, options, interp)
    {
      assert done + here[..j + 1] == (done + here[..j]) + [here[j]];
      ChainSnoc(done + here[..j], here[j], value, options, interp);
      r := interp(bucket[j], r, options);  // `value = callback(value, options)`
      j := j + 1;
    }
    assert here[..j] == here;
  }

  /**
   * The bucket array that `runAction` and `applyFilters` build: an entry at
   * index `p` for every priority in use (the other indices are holes), holding
   * the callbacks of that priority in registration order, and its length.
   */
  method Bucketize(hooks: seq<Hook>) returns (buckets: map<nat, seq<CallbackId>>, length: nat)
    ensures length == PriorityBound(hooks)
    ensures forall p :: p in buckets <==> AtPriority(hooks, p) != []
    ensures forall p :: p in buckets ==> buckets[p] == Callbacks(AtPriority(hooks, p))
  {
    buckets, length := map[], 0;
    var i := 0;
    while i < |hooks|
      invariant i <= |hooks|
      invariant length == PriorityBound(hooks[..i])
      invariant forall p :: p in buckets <==> AtPriority(hooks[..i], p) != []
      invariant forall p :: p in buckets ==> buckets[p] == Callbacks(AtPriority(hooks[..i], p))
    {
      var hook := hooks[i];
      var bucket := if hook.priority in buckets then buckets[hook.priority] else [];
      buckets := buckets[hook.priority := bucket + [hook.callback]];
      if hook.priority < ArrayIndexLimit && length <= hook.priority {
        length := hook.priority + 1;  // assigning past the end grows a sparse array
      }
      assert hooks[..i + 1] == hooks[..i] + [hook];
      PriorityBoundSnoc(hooks[..i], hook);
      BucketsSnoc(hooks[..i], hook);
      i := i + 1;
    }
    assert hooks[..i] == hooks;
  }

  /** Registering one more hook appends its callback to its own bucket and to no other. */
  lemma BucketsSnoc(hooks: seq<Hook>, hook: Hook)
    ensures forall p :: AtPriority(hooks + [hook], p) != [] <==> AtPriority(hooks, p) != [] || hook.priority == p
    ensures forall p :: Callbacks(AtPriority(hooks + [hook], p))
                        == Callbacks(AtPriority(hooks, p)) + (if hook.priority == p then [hook.callback] else [])
  {
    forall p {
      BucketSnocAt(hooks, hook, p);
    }
  }

  lemma BucketSnocAt(hooks: seq<Hook>, hook: Hook, p: nat)
    ensures AtPriority(hooks + [hook], p) != [] <==> AtPriority(hooks, p) != [] || hook.priority == p
    ensures Callbacks(AtPriority(hooks + [hook], p))
            == Callbacks(AtPriority(hooks, p)) + (if hook.priority == p then [hook.callback] else [])
  {
    var before, added := AtPriority(hooks, p), if hook.priority == p then [hook] else [];
    AtPrioritySnoc(hooks, hook, p);
    CallbacksAppend(before, added);
    assert Callbacks(added) == if hook.priority == p then [hook.callback] else [];
  }

  lemma CallbacksAppend(a: seq<Hook>, b: seq<Hook>)
    ensures Callbacks(a + b) == Callbacks(a) + Callbacks(b)
  {
  }

  /** The hooks registered on one bus, one registry for actions and one for filters. */
  class Bus {
    var actions: Registry
    var filters: Registry

    /** `new Bus(actions, filters)`: an absent registry starts empty. */
    constructor(actions: Option<Registry>, filters: Option<Registry>)
      ensures this.actions == actions.GetOr(map[])
      ensures this.filters == filters.GetOr(map[])
    {
      this.actions := actions.GetOr(map[]);
      this.filters := filters.GetOr(map[]);
    }

    /** Appends one action hook under `tag`; an omitted priority is `DefaultPriority`. */
    method AddAction(tag: string, callback: CallbackId, priority: Option<nat>)
      modifies this
      ensures actions == old(actions)[tag := Registered(old(actions), tag) + [Hook(priority.GetOr(DefaultPriority), callback)]]
      ensures filters == old(filters)
    {
      var p := if priority.None? then DefaultPriority else priority.value;
      actions := actions[tag := Registered(actions, tag)];
      actions := actions[tag := actions[tag] + [Hook(p, callback)]];
    }

    /** Appends one filter hook under `tag`; an omitted priority is `DefaultPriority`. */
    method AddFilter(tag: string, callback: CallbackId, priority: Option<nat>)
      modifies this
      ensures filters == old(filters)[tag := Registered(old(filters), tag) + [Hook(priority.GetOr(DefaultPriority), callback)]]
      ensures actions == old(actions)
    {
      var p := if priority.None? then DefaultPriority else priority.value;
      filters := filters[tag := Registered(filters, tag)];
      filters := filters[tag := filters[tag] + [Hook(p, callback)]];
    }

    /** Splices the action hooks carrying `callback` out of `tag`'s list while walking it. */
    method RemoveAction(tag: string, callback: CallbackId)
      modifies this
      ensures actions == old(actions)[tag := SpliceRemove(Registered(old(actions), tag), callback)]
      ensures filters == old(filters)
    {
      actions := actions[tag := Registered(actions, tag)];
      var kept := SpliceDuringForEach(actions[tag], callback);
      actions := actions[tag := kept];
    }

    /** Splices the filter hooks carrying `callback` out of `tag`'s list while walking it. */
    method RemoveFilter(tag: string, callback: CallbackId)
      modifies this
      ensures filters == old(filters)[tag := SpliceRemove(Registered(old(filters), tag), callback)]
      ensures actions == old(actions)
    {
      filters := filters[tag := Registered(filters, tag)];
      var kept := SpliceDuringForEach(filters[tag], callback);
      filters := filters[tag := kept];
    }

    /**
     * Calls every action hook under `tag` once, with `options`, bucket by
     * bucket; `calls` is the trace of the calls made. The registries are only read.
     */
    method RunAction<O>(tag: string, options: O) returns (calls: seq<(CallbackId, O)>)
      ensures calls == Invocations(Order(Registered(actions, tag)), options)
    {
      calls := [];
      if tag in actions && |actions[tag]| > 0 {
        var hooks := actions[tag];
        var buckets, length := Bucketize(hooks);
        var p := 0;
        while p < length
          invariant p <= length
          invariant calls == Invocations(OrderBelow(hooks, p), options)
        {
          ghost var done: seq<Hook> := OrderBelow(hooks, p);
          ghost var here: seq<Hook> := AtPriority(hooks, p);
          if p in buckets {  // `forEach` skips the holes
            calls := RunBucket(buckets[p], done, here, calls, options);
          } else {
            assert done + here == done;
          }
          p := p + 1;
        }
      }
    }

    /**
     * Passes `value` through every filter hook under `tag`, bucket by bucket,
     * each callback receiving the previous one's result and the same `options`.
     * The registries are only read.
     */
    method ApplyFilters<V, O>(tag: string, value: V, options: O, interp: (CallbackId, V, O) -> V) returns (result: V)
      ensures result == Chain(Order(Registered(filters, tag)), value, options, interp)
    {
      result := value;
      if tag in filters && |filters[tag]| > 0 {
        var hooks := filters[tag];
        var buckets, length := Bucketize(hooks);
        var p := 0;
        while p < length
          invariant p <= length
          invariant result == Chain(OrderBelow(hooks, p), value, options, interp)
        {
          ghost var done: seq<Hook> := OrderBelow(hooks, p);
          ghost var here: seq<Hook> := AtPriority(hooks, p);
          if p in buckets {
            result := FilterBucket(buckets[p], done, here, result, value, options, interp);
          } else {
            assert done + here == done;
          }
          p := p + 1;
        }
      }
    }
  }

  /** The calls `runAction` makes for hooks visited in this order. */
  function Invocations<O>(hooks: seq<Hook>, options: O): (r: seq<(CallbackId, O)>)
    ensures |r| == |hooks|
    ensures forall i :: 0 <= i < |hooks| ==> r[i] == (hooks[i].callback, options)
  {
    seq(|hooks|, i requires 0 <= i < |hooks| => (hooks[i].callback, options))
  }

  lemma InvocationsAppend<O>(hooks: seq<Hook>, hook: Hook, options: O)
    ensures Invocations(hooks + [hook], options) == Invocations(hooks, options) + [(hook.callback, options)]
  {
  }

  // ---------------------------------------------------------------------------
  // Properties of the dispatch order

  lemma {:induction false} AtPriorityAppend(a: seq<Hook>, b: seq<Hook>, p: nat)
    ensures AtPriority(a + b, p) == AtPriority(a, p) + AtPriority(b, p)
    decreases |b|
  {
    if b == [] {
      assert a + b == a;
    } else {
      var init := b[..|b| - 1];
      assert (a + b)[..|a + b| - 1] == a + init;
      AtPriorityAppend(a, init, p);
    }
  }

  lemma {:induction false} AtPriorityMembers(hooks: seq<Hook>, p: nat)
    ensures forall i :: 0 <= i < |AtPriority(hooks, p)| ==>
              AtPriority(hooks, p)[i] in hooks && AtPriority(hooks, p)[i].priority == p
  {
    if hooks != [] {
      var init := hooks[..|hooks| - 1];
      AtPriorityMembers(init, p);
      assert forall x :: x in init ==> x in hooks;
    }
  }

  lemma {:induction false} OrderBelowMembers(hooks: seq<Hook>, n: nat)
    ensures forall i :: 0 <= i < |OrderBelow(hooks, n)| ==>
              OrderBelow(hooks, n)[i] in hooks && OrderBelow(hooks, n)[i].priority < n
  {
    if n > 0 {
      OrderBelowMembers(hooks, n - 1);
      AtPriorityMembers(hooks, n - 1);
      var a, b := OrderBelow(hooks, n - 1), AtPriority(hooks, n - 1);
      assert forall i :: 0 <= i < |a + b| ==> (a + b)[i] in a || (a + b)[i] in b;
    }
  }

  lemma {:induction false} PriorityBoundAbove(hooks: seq<Hook>)
    ensures PriorityBound(hooks) <= ArrayIndexLimit
    ensures forall i :: 0 <= i < |hooks| && hooks[i].priority < ArrayIndexLimit ==> hooks[i].priority < PriorityBound(hooks)
  {
    if hooks != [] {
      var init := hooks[..|hooks| - 1];
      PriorityBoundAbove(init);
      assert forall i :: 0 <= i < |init| ==> init[i] == hooks[i];
    }
  }

  lemma PriorityBoundSnoc(hooks: seq<Hook>, hook: Hook)
    ensures PriorityBound(hooks + [hook])
            == if hook.priority < ArrayIndexLimit && PriorityBound(hooks) <= hook.priority then hook.priority + 1
               else PriorityBound(hooks)
  {
    assert (hooks + [hook])[..|hooks|] == hooks;
  }

  lemma AtPrioritySnoc(hooks: seq<Hook>, hook: Hook, p: nat)
    ensures AtPriority(hooks + [hook], p) == AtPriority(hooks, p) + (if hook.priority == p then [hook] else [])
  {
    assert (hooks + [hook])[..|hooks|] == hooks;
  }

  /** No hook of priority `p`: the bucket at `p` is a hole. */
  lemma {:induction false} AtPriorityAbsent(hooks: seq<Hook>, p: nat)
    requires forall i :: 0 <= i < |hooks| ==> hooks[i].priority != p
    ensures AtPriority(hooks, p) == []
  {
    if hooks != [] {
      AtPriorityAbsent(hooks[..|hooks| - 1], p);
    }
  }

  /** A bucket of a single priority is itself at that priority and empty at every other. */
  lemma {:induction false} AtPriorityUniform(hooks: seq<Hook>, q: nat, p: nat)
    requires forall i :: 0 <= i < |hooks| ==> hooks[i].priority == q
    ensures AtPriority(hooks, p) == if p == q then hooks else []
  {
    if hooks != [] {
      AtPriorityUniform(hooks[..|hooks| - 1], q, p);
      assert hooks[..|hooks| - 1] + [hooks[|hooks| - 1]] == hooks;
    }
  }

  lemma {:induction false} AtPriorityOrderBelow(hooks: seq<Hook>, n: nat, p: nat)
    ensures p < n ==> AtPriority(OrderBelow(hooks, n), p) == AtPriority(hooks, p)
    ensures n <= p ==> AtPriority(OrderBelow(hooks, n), p) == []
  {
    if n > 0 {
      AtPriorityOrderBelow(hooks, n - 1, p);
      if p == n - 1 {
        NewBucketStep(hooks, n);
      } else {
        OtherBucketStep(hooks, n, p);
      }
    }
  }

  /** Adding bucket `n - 1` to the order contributes exactly that bucket at priority `n - 1`. */
  lemma NewBucketStep(hooks: seq<Hook>, n: nat)
    requires n > 0
    requires AtPriority(OrderBelow(hooks, n - 1), n - 1) == []
    ensures AtPriority(OrderBelow(hooks, n), n - 1) == AtPriority(hooks, n - 1)
  {
    AtPriorityMembers(hooks, n - 1);
    UniformTailAt(OrderBelow(hooks, n - 1), AtPriority(hooks, n - 1), n - 1);
  }

  /** Adding bucket `n - 1` to the order contributes nothing at any other priority. */
  lemma OtherBucketStep(hooks: seq<Hook>, n: nat, p: nat)
    requires n > 0 && p != n - 1
    ensures AtPriority(OrderBelow(hooks, n), p) == AtPriority(OrderBelow(hooks, n - 1), p)
  {
    AtPriorityMembers(hooks, n - 1);
    UniformTailElsewhere(OrderBelow(hooks, n - 1), AtPriority(hooks, n - 1), n - 1, p);
  }

  lemma UniformTailAt(a: seq<Hook>, b: seq<Hook>, q: nat)
    requires AtPriority(a, q) == []
    requires forall i :: 0 <= i < |b| ==> b[i].priority == q
    ensures AtPriority(a + b, q) == b
  {
    AtPriorityAppend(a, b, q);
    AtPriorityUniform(b, q, q);
    assert [] + b == b;
  }

  lemma UniformTailElsewhere(a: seq<Hook>, b: seq<Hook>, q: nat, p: nat)
    requires p != q
    requires forall i :: 0 <= i < |b| ==> b[i].priority == q
    ensures AtPriority(a + b, p) == AtPriority(a, p)
  {
    AtPriorityAppend(a, b, p);
    AtPriorityUniform(b, q, p);
    assert AtPriority(a, p) + [] == AtPriority(a, p);
  }


  /**
   * Within one priority, hooks run in registration order; hooks whose
   * priority is not an array index do not run.
   */
  lemma OrderKeepsRegistrationOrder(hooks: seq<Hook>, p: nat)
    ensures p < ArrayIndexLimit ==> AtPriority(Order(hooks), p) == AtPriority(hooks, p)
    ensures ArrayIndexLimit <= p ==> AtPriority(Order(hooks), p) == []
  {
    var n := PriorityBound(hooks);
    AtPriorityOrderBelow(hooks, n, p);
    PriorityBoundAbove(hooks);
    if n <= p < ArrayIndexLimit {
      AtPriorityAbsent(hooks, p);
    }
  }

  lemma {:induction false} OrderBelowSorted(hooks: seq<Hook>, n: nat)
    ensures SortedByPriority(OrderBelow(hooks, n))
  {
    if n > 0 {
      OrderBelowSorted(hooks, n - 1);
      OrderBelowMembers(hooks, n - 1);
      AtPriorityMembers(hooks, n - 1);
      var a, b := OrderBelow(hooks, n - 1), AtPriority(hooks, n - 1);
      var s := a + b;
      forall i, j | 0 <= i < j < |s| ensures s[i].priority <= s[j].priority {
        if j < |a| {
          assert s[i] == a[i] && s[j] == a[j];
        } else if i >= |a| {
          assert s[i] == b[i - |a|] && s[j] == b[j - |a|];
        } else {
          assert s[i] == a[i] && s[j] == b[j - |a|];
        }
      }
    }
  }

  /** Hooks run in ascending priority. */
  lemma OrderSorted(hooks: seq<Hook>)
    ensures SortedByPriority(Order(hooks))
  {
    OrderBelowSorted(hooks, PriorityBound(hooks));
  }

  /** The hooks of priority below `n`, in registration order. */
  function Below(hooks: seq<Hook>, n: nat): seq<Hook> {
    if hooks == [] then []
    else
      var last := hooks[|hooks| - 1];
      Below(hooks[..|hooks| - 1], n) + (if last.priority < n then [last] else [])
  }

  lemma {:induction false} BelowStep(hooks: seq<Hook>, n: nat)
    requires n > 0
    ensures multiset(Below(hooks, n)) == multiset(Below(hooks, n - 1)) + multiset(AtPriority(hooks, n - 1))
  {
    if hooks != [] {
      var init, last := hooks[..|hooks| - 1], hooks[|hooks| - 1];
      BelowStep(init, n);
      assert Below(hooks, n) == Below(init, n) + (if last.priority < n then [last] else []);
      assert Below(hooks, n - 1) == Below(init, n - 1) + (if last.priority < n - 1 then [last] else []);
      assert AtPriority(hooks, n - 1) == AtPriority(init, n - 1) + (if last.priority == n - 1 then [last] else []);
    }
  }

  lemma {:induction false} BelowAll(hooks: seq<Hook>, n: nat)
    requires forall i :: 0 <= i < |hooks| ==> hooks[i].priority < n
    ensures Below(hooks, n) == hooks
  {
    if hooks != [] {
      BelowAll(hooks[..|hooks| - 1], n);
      assert hooks[..|hooks| - 1] + [hooks[|hooks| - 1]] == hooks;
    }
  }

  lemma {:induction false} OrderBelowMultiset(hooks: seq<Hook>, n: nat)
    ensures multiset(OrderBelow(hooks, n)) == multiset(Below(hooks, n))
  {
    if n == 0 {
      BelowNone(hooks);
    } else {
      var a, b := OrderBelow(hooks, n - 1), AtPriority(hooks, n - 1);
      OrderBelowMultiset(hooks, n - 1);
      BelowStep(hooks, n);
      calc {
        multiset(OrderBelow(hooks, n));
        multiset(a + b);
        multiset(a) + multiset(b);
        multiset(Below(hooks, n - 1)) + multiset(b);
      }
    }
  }

  lemma {:induction false} BelowNone(hooks: seq<Hook>)
    ensures Below(hooks, 0) == []
  {
    if hooks != [] {
      BelowNone(hooks[..|hooks| - 1]);
    }
  }

  /**
   * Every registered hook whose priority is an array index runs exactly once,
   * and no other hook runs: the order is a permutation of those registrations.
   */
  lemma OrderIsPermutation(hooks: seq<Hook>)
    ensures multiset(Order(hooks)) == multiset(Below(hooks, ArrayIndexLimit))
  {
    var n := PriorityBound(hooks);
    OrderBelowMultiset(hooks, n);
    PriorityBoundAbove(hooks);
    BelowCut(hooks, n);
  }

  /** When every priority is an array index, every registered hook runs exactly once. */
  lemma OrderIsPermutationOfAll(hooks: seq<Hook>)
    requires forall i :: 0 <= i < |hooks| ==> hooks[i].priority < ArrayIndexLimit
    ensures multiset(Order(hooks)) == multiset(hooks)
  {
    OrderIsPermutation(hooks);
    BelowAll(hooks, ArrayIndexLimit);
  }

  /** A hook whose priority is not an array index never runs. */
  lemma NonIndexPriorityNeverRuns(hooks: seq<Hook>, hook: Hook)
    requires ArrayIndexLimit <= hook.priority
    ensures hook !in Order(hooks)
  {
    PriorityBoundAbove(hooks);
    OrderBelowMembers(hooks, PriorityBound(hooks));
  }

  /**
   * Between the array's length and the index limit there are no hooks, so
   * cutting at either gives the same hooks.
   */
  lemma {:induction false} BelowCut(hooks: seq<Hook>, n: nat)
    requires n <= ArrayIndexLimit
    requires forall i :: 0 <= i < |hooks| && hooks[i].priority < ArrayIndexLimit ==> hooks[i].priority < n
    ensures Below(hooks, n) == Below(hooks, ArrayIndexLimit)
  {
    if hooks != [] {
      var init := hooks[..|hooks| - 1];
      assert forall i :: 0 <= i < |init| ==> init[i] == hooks[i];
      BelowCut(init, n);
    }
  }

  lemma {:induction false} PriorityBoundUniform(hooks: seq<Hook>, q: nat)
    requires hooks != []
    requires forall i :: 0 <= i < |hooks| ==> hooks[i].priority == q
    ensures PriorityBound(hooks) == if q < ArrayIndexLimit then q + 1 else 0
  {
    if |hooks| > 1 {
      PriorityBoundUniform(hooks[..|hooks| - 1], q);
    }
  }

  lemma {:induction false} OrderBelowUniform(hooks: seq<Hook>, q: nat, n: nat)
    requires forall i :: 0 <= i < |hooks| ==> hooks[i].priority == q
    requires n <= q
    ensures OrderBelow(hooks, n) == []
  {
    if n > 0 {
      OrderBelowUniform(hooks, q, n - 1);
      AtPriorityUniform(hooks, q, n - 1);
    }
  }

  /**
   * Hooks that all share one priority run in registration order, or not at
   * all when that priority is not an array index.
   */
  lemma SamePriorityInRegistrationOrder(hooks: seq<Hook>, q: nat)
    requires forall i :: 0 <= i < |hooks| ==> hooks[i].priority == q
    ensures q < ArrayIndexLimit ==> Order(hooks) == hooks
    ensures ArrayIndexLimit <= q ==> Order(hooks) == []
  {
    if hooks != [] {
      PriorityBoundUniform(hooks, q);
      if q < ArrayIndexLimit {
        OrderBelowUniform(hooks, q, q);
        AtPriorityUniform(hooks, q, q);
      }
    }
  }

  /** A at 5, B at 1, C at 5 run as B, A, C. */
  lemma OrderExample(a: CallbackId, b: CallbackId, c: CallbackId)
    ensures Order([Hook(5, a), Hook(1, b), Hook(5, c)]) == [Hook(1, b), Hook(5, a), Hook(5, c)]
  {
    var h1 := [Hook(5, a)];
    var h2 := h1 + [Hook(1, b)];
    var hooks := h2 + [Hook(5, c)];
    assert [] + [Hook(5, a)] == h1;
    PriorityBoundSnoc([], Hook(5, a));
    PriorityBoundSnoc(h1, Hook(1, b));
    PriorityBoundSnoc(h2, Hook(5, c));
    assert PriorityBound(hooks) == 6;
    forall p | p != 1 && p != 5 ensures AtPriority(hooks, p) == [] {
      AtPriorityAbsent(hooks, p);
    }
    AtPrioritySnoc([], Hook(5, a), 1);
    AtPrioritySnoc(h1, Hook(1, b), 1);
    AtPrioritySnoc(h2, Hook(5, c), 1);
    AtPrioritySnoc([], Hook(5, a), 5);
    AtPrioritySnoc(h1, Hook(1, b), 5);
    AtPrioritySnoc(h2, Hook(5, c), 5);
    assert OrderBelow(hooks, 1) == [];
    assert OrderBelow(hooks, 2) == [Hook(1, b)];
    assert OrderBelow(hooks, 3) == [Hook(1, b)];
    assert OrderBelow(hooks, 4) == [Hook(1, b)];
    assert OrderBelow(hooks, 5) == [Hook(1, b)];
    assert OrderBelow(hooks, 6) == [Hook(1, b)] + [Hook(5, a), Hook(5, c)];
    assert hooks == [Hook(5, a), Hook(1, b), Hook(5, c)];
    assert Order(hooks) == OrderBelow(hooks, 6);
  }

  // ---------------------------------------------------------------------------
  // Properties of the filter fold

  lemma ChainSnoc<V, O>(hooks: seq<Hook>, hook: Hook, value: V, options: O, interp: (CallbackId, V, O) -> V)
    ensures Chain(hooks + [hook], value, options, interp)
            == interp(hook.callback, Chain(hooks, value, options, interp), options)
  {
    assert (hooks + [hook])[..|hooks|] == hooks;
  }

  /** Filtering through `a` then `b` is filtering through `a + b`. */
  lemma {:induction false} ChainAppend<V, O>(a: seq<Hook>, b: seq<Hook>, value: V, options: O,
                                               interp: (CallbackId, V, O) -> V)
    ensures Chain(a + b, value, options, interp) == Chain(b, Chain(a, value, options, interp), options, interp)
    decreases |b|
  {
    if b == [] {
      assert a + b == a;
    } else {
      var init := b[..|b| - 1];
      assert (a + b)[..|a + b| - 1] == a + init;
      ChainAppend(a, init, value, options, interp);
    }
  }

  /** A tag with no filters, or an empty list of them, returns the value unchanged. */
  lemma ApplyFiltersUnregistered<V, O>(filters: Registry, tag: string, value: V, options: O,
                                       interp: (CallbackId, V, O) -> V)
    requires tag !in filters || filters[tag] == []
    ensures ApplyFiltersResult(filters, tag, value, options, interp) == value
  {
  }

  /**
   * Two filters registered in turn at one priority compose as `f2(f1(value))`;
   * at a priority that is not an array index neither runs.
   */
  lemma TwoFiltersCompose<V, O>(filters: Registry, tag: string, p: nat, f1: CallbackId, f2: CallbackId,
                                value: V, options: O, interp: (CallbackId, V, O) -> V)
    requires Registered(filters, tag) == [Hook(p, f1), Hook(p, f2)]
    ensures p < ArrayIndexLimit ==>
              ApplyFiltersResult(filters, tag, value, options, interp) == interp(f2, interp(f1, value, options), options)
    ensures ArrayIndexLimit <= p ==> ApplyFiltersResult(filters, tag, value, options, interp) == value
  {
    var hooks := [Hook(p, f1), Hook(p, f2)];
    SamePriorityInRegistrationOrder(hooks, p);
    if p < ArrayIndexLimit {
      ChainSnoc([Hook(p, f1)], Hook(p, f2), value, options, interp);
      ChainSnoc([], Hook(p, f1), value, options, interp);
      assert [Hook(p, f1)] + [Hook(p, f2)] == hooks;
    }
  }

  // ---------------------------------------------------------------------------
  // Properties of removal

  /** Removal keeps every hook whose callback differs, in its original relative order. */
  lemma {:induction false} SpliceRemoveKeepsOthers(hooks: seq<Hook>, callback: CallbackId)
    ensures Without(SpliceRemove(hooks, callback), callback) == Without(hooks, callback)
    decreases |hooks|
  {
    if hooks != [] {
      if hooks[0].callback == callback {
        if |hooks| >= 2 {
          var rest := SpliceRemove(hooks[2..], callback);
          SpliceRemoveKeepsOthers(hooks[2..], callback);
          assert ([hooks[1]] + rest)[0] == hooks[1] && ([hooks[1]] + rest)[1..] == rest;
          assert hooks[1..][0] == hooks[1] && hooks[1..][1..] == hooks[2..];
        }
      } else {
        var rest := SpliceRemove(hooks[1..], callback);
        SpliceRemoveKeepsOthers(hooks[1..], callback);
        assert ([hooks[0]] + rest)[0] == hooks[0] && ([hooks[0]] + rest)[1..] == rest;
      }
    }
  }

  /** When no two hooks carrying `callback` are adjacent, every one of them is removed. */
  lemma {:induction false} SpliceRemoveSeparated(hooks: seq<Hook>, callback: CallbackId)
    requires NoAdjacentMatches(hooks, callback)
    ensures SpliceRemove(hooks, callback) == Without(hooks, callback)
    decreases |hooks|
  {
    if hooks != [] {
      if hooks[0].callback == callback {
        if |hooks| >= 2 {
          assert hooks[1].callback != callback;
          SpliceRemoveSeparated(hooks[2..], callback);
          assert hooks[1..][0] == hooks[1] && hooks[1..][1..] == hooks[2..];
        }
      } else {
        SpliceRemoveSeparated(hooks[1..], callback);
      }
    }
  }

  /**
   * Of two adjacent hooks carrying `callback`, the first one the loop reaches
   * is spliced out and the second survives.
   */
  lemma {:induction false} SpliceRemoveSkipsSecondOfPair(before: seq<Hook>, first: Hook, second: Hook,
                                                        after: seq<Hook>, callback: CallbackId)
    requires forall i :: 0 <= i < |before| ==> before[i].callback != callback
    requires first.callback == callback && second.callback == callback
    ensures SpliceRemove(before + [first, second] + after, callback)
            == before + [second] + SpliceRemove(after, callback)
    decreases |before|
  {
    var s := before + [first, second] + after;
    if before == [] {
      assert s[0] == first && s[1] == second && s[2..] == after;
    } else {
      SpliceRemoveSkipsSecondOfPair(before[1..], first, second, after, callback);
      assert s[0] == before[0] && s[1..] == before[1..] + [first, second] + after;
    }
  }

  /**
   * A hook appended for a callback the list does not yet carry is the only
   * match, so removing that callback gives back the list as it was.
   */
  lemma {:induction false} SpliceRemoveAfterAdd(list: seq<Hook>, added: Hook, callback: CallbackId)
    requires forall i :: 0 <= i < |list| ==> list[i].callback != callback
    requires added.callback == callback
    ensures SpliceRemove(list + [added], callback) == list
    decreases |list|
  {
    var s := list + [added];
    if list == [] {
      assert s == [added];
    } else {
      SpliceRemoveAfterAdd(list[1..], added, callback);
      assert s[0] == list[0] && s[1..] == list[1..] + [added];
    }
  }

  /**
   * Registering the same callback twice in a row and removing it once leaves
   * the second registration in place.
   */
  lemma SpliceRemoveAfterAddTwice(list: seq<Hook>, first: Hook, second: Hook, callback: CallbackId)
    requires forall i :: 0 <= i < |list| ==> list[i].callback != callback
    requires first.callback == callback && second.callback == callback
    ensures SpliceRemove(list + [first, second], callback) == list + [second]
  {
    SpliceRemoveSkipsSecondOfPair(list, first, second, [], callback);
    assert list + [first, second] + [] == list + [first, second];
  }

  /** `addFilter(tag, cb, 10); addFilter(tag, cb, 1); removeFilter(tag, cb)` keeps the priority 1 hook. */
  lemma SpliceRemoveTwiceExample(callback: CallbackId)
    ensures SpliceRemove([Hook(10, callback), Hook(1, callback)], callback) == [Hook(1, callback)]
  {
    SpliceRemoveAfterAddTwice([], Hook(10, callback), Hook(1, callback), callback);
    assert [] + [Hook(10, callback), Hook(1, callback)] == [Hook(10, callback), Hook(1, callback)];
  }

  /**
   * On any bus, `addFilter` then `removeFilter` of a callback not yet registered
   * under `tag` restores `tag`'s list (the tag is left present) and what
   * `applyFilters` returns for it; the actions are untouched.
   */
  method AddRemoveFilterRoundTrip<V, O>(bus: Bus, tag: string, callback: CallbackId, priority: Option<nat>,
                                        value: V, options: O, interp: (CallbackId, V, O) -> V)
      returns (before: V, after: V)
    requires forall i :: 0 <= i < |Registered(bus.filters, tag)| ==> Registered(bus.filters, tag)[i].callback != callback
    modifies bus
    ensures bus.filters == old(bus.filters)[tag := Registered(old(bus.filters), tag)]
    ensures bus.actions == old(bus.actions)
    ensures after == before
  {
    before := bus.ApplyFilters(tag, value, options, interp);
    ghost var list := Registered(bus.filters, tag);
    bus.AddFilter(tag, callback, priority);
    bus.RemoveFilter(tag, callback);
    SpliceRemoveAfterAdd(list, Hook(priority.GetOr(DefaultPriority), callback), callback);
    after := bus.ApplyFilters(tag, value, options, interp);
  }

  /** A hook added under a fresh tag and removed again leaves the filters with nothing to apply. */
  method RemoveAfterAddRestores<V, O>(tag: string, callback: CallbackId, value: V, options: O,
                                      interp: (CallbackId, V, O) -> V) returns (result: V)
    ensures result == value
  {
    var bus := new Bus(None, None);
    bus.AddFilter(tag, callback, Some(1));
    bus.RemoveFilter(tag, callback);
    result := bus.ApplyFilters(tag, value, options, interp);
  }
}

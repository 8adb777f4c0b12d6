/**
 What the least-recently-used store promises over a whole trace of calls: it never shows (any
 eviction whatever is invisible), it keeps exactly the most recently used keys, and a smaller
 store is always a prefix of a larger one.
 */
module LruLaws {
  import opened Wrappers
  import opened Sequences
  import opened Machines
  import opened GroupStores

  /**
   The calls on the store, with what they do to the keystore behind it: a created entity is
   persisted or not, a discarded one is removed from both.
   */
  datatype Call<K, V> = Lookup(key: K) | Create(key: K, value: V, persisted: bool) | Discard(key: K)

  datatype Backed<K(==, !new), V> = Backed(cache: Lru<K, V>, stored: map<K, V>) {
    /** Every cached entity is in the keystore, unchanged. */
    ghost predicate Valid(limiter: HybridMemoryLimiter<K>) {
      cache.Valid(limiter) && forall k :: k in cache.entries ==> k in stored && stored[k] == cache.entries[k]
    }
  }

  function Stored<K(==), V>(stored: map<K, V>, k: K): (r: Option<V>)
  {
    if k in stored then Some(stored[k]) else None
  }

  function Step<K(==, !new), V>(limiter: HybridMemoryLimiter<K>, s: Backed<K, V>, call: Call<K, V>)
    : (r: (Backed<K, V>, Option<V>))
  {
    match call
    case Lookup(k) =>
      var (cache, found) := s.cache.GetFetch<()>(limiter, k, x => Ok(Stored(s.stored, x)));
      (s.(cache := cache), if found.Ok? then found.value else None)
    case Create(k, v, persisted) =>
      (Backed(s.cache.Insert(limiter, k, v), if persisted then s.stored[k := v] else s.stored), None)
    case Discard(k) => (Backed(s.cache.Remove(k), s.stored - {k}), None)
  }

  function Machine<K(==, !new), V>(
    limiter: HybridMemoryLimiter<K>): (Backed<K, V>, Call<K, V>) -> (Backed<K, V>, Option<V>)
  {
    (s, call) => Step(limiter, s, call)
  }

  /** A whole trace of calls. */
  function Trace<K(==, !new), V>(limiter: HybridMemoryLimiter<K>, s: Backed<K, V>, calls: seq<Call<K, V>>)
    : (r: (Backed<K, V>, seq<Option<V>>))
  {
    Run(Machine(limiter), s, calls)
  }

  lemma {:induction false} StepValid<K(!new), V>(limiter: HybridMemoryLimiter<K>, s: Backed<K, V>, call: Call<K, V>)
    requires s.cache.Valid(limiter)
    ensures Step(limiter, s, call).0.cache.Valid(limiter)
    ensures s.Valid(limiter) && (call.Create? ==> call.persisted) ==> Step(limiter, s, call).0.Valid(limiter)
  {
    var k := call.key;
    RemoveValid(limiter, s.cache, k);
    if k in s.cache.entries {
      PromoteValid(limiter, s.cache, k);
    }
    if limiter.len > 0 {
      if call.Create? {
        InsertKeeps(limiter, s.cache, k, call.value);
      } else if k in s.stored {
        InsertKeeps(limiter, s.cache, k, s.stored[k]);
      }
    }
  }

  ghost predicate AllPersisted<K, V>(calls: seq<Call<K, V>>) {
    forall i :: 0 <= i < |calls| && calls[i].Create? ==> calls[i].persisted
  }

  /** What the same calls answer with no cache at all. */
  function Plain<K(==), V>(stored: map<K, V>, calls: seq<Call<K, V>>): (r: (map<K, V>, seq<Option<V>>))
    decreases |calls|
  {
    if calls == [] then (stored, [])
    else
      var stored' :=
        match calls[0]
        case Lookup(_) => stored
        case Create(k, v, persisted) => if persisted then stored[k := v] else stored
        case Discard(k) => stored - {k};
      var (end, replies) := Plain(stored', calls[1..]);
      (end, [if calls[0].Lookup? then Stored(stored, calls[0].key) else None] + replies)
  }

  /** Whatever is evicted and whenever, the store answers like the keystore alone. */
  lemma {:induction false} EvictionsAreInvisible<K(!new), V>(
      limiter: HybridMemoryLimiter<K>, s: Backed<K, V>, calls: seq<Call<K, V>>)
    requires s.Valid(limiter) && AllPersisted(calls)
    ensures var (end, replies) := Trace(limiter, s, calls);
      && end.Valid(limiter) && (end.stored, replies) == Plain(s.stored, calls)
    decreases |calls|
  {
    if calls != [] {
      StepValid(limiter, s, calls[0]);
      EvictionsAreInvisible(limiter, Step(limiter, s, calls[0]).0, calls[1..]);
    }
  }

  /** The new recency list when `k` is used. */
  function Touch<K(==, !new)>(order: seq<K>, k: K): (r: seq<K>)
  {
    [k] + Without(order, k)
  }

  /** Cutting to the limit at each use or only at the end makes no difference. */
  lemma {:induction false} CutTouch<K(!new)>(order: seq<K>, k: K, n: nat)
    requires NoDup(order)
    ensures Cut(Touch(Cut(order, n), k), n) == Cut(Touch(order, k), n)
  {
    if |order| > n {
      var (a, b) := (order[..n], order[n..]);
      assert order == a + b;
      WithoutAppend(a, b, k);
      if k in a {
        WithoutLength(a, k);
        assert forall i :: 0 <= i < |b| ==> b[i] == order[n + i];
        assert k !in b;
      }
    }
  }

  lemma {:induction false} TouchNoDup<K(!new)>(order: seq<K>, k: K)
    requires NoDup(order)
    ensures NoDup(Touch(order, k))
  {
    WithoutNoDup(order, k);
    NoDupAppend([k], Without(order, k));
  }

  /** With the length limit alone, one call touches its key, removes it, or does nothing. */
  lemma {:induction false} StepOrder<K(!new), V>(limiter: HybridMemoryLimiter<K>, s: Backed<K, V>, call: Call<K, V>)
    requires limiter.LengthOnly() && limiter.len > 0 && s.Valid(limiter)
    ensures Step(limiter, s, call).0.cache.order ==
      if call.Discard? then Without(s.cache.order, call.key)
      else if call.Create? || call.key in s.stored then Cut(Touch(s.cache.order, call.key), limiter.len)
      else s.cache.order
  {
    var k := call.key;
    if call.Create? {
      InsertKeeps(limiter, s.cache, k, call.value);
    } else if call.Lookup? && k in s.cache.entries {
      PromoteValid(limiter, s.cache, k);
    } else if call.Lookup? && k in s.stored {
      InsertKeeps(limiter, s.cache, k, s.stored[k]);
    }
  }

  lemma {:induction false} CutPrefix<T>(a: seq<T>, b: seq<T>, n: nat, m: nat)
    requires a <= b && n <= m
    ensures Cut(a, n) <= Cut(b, m)
  {
  }

  lemma {:induction false} InclusionStep<K(!new), V>(
      small: HybridMemoryLimiter<K>, large: HybridMemoryLimiter<K>, s: Backed<K, V>, t: Backed<K, V>, call: Call<K, V>)
    requires small.LengthOnly() && large.LengthOnly() && 0 < small.len <= large.len
    requires s.Valid(small) && t.Valid(large) && s.stored == t.stored
    requires s.cache.order <= t.cache.order
    ensures Step(small, s, call).0.cache.order <= Step(large, t, call).0.cache.order
  {
    StepOrder(small, s, call);
    StepOrder(large, t, call);
    WithoutPrefix(s.cache.order, t.cache.order, call.key);
    CutPrefix(Touch(s.cache.order, call.key), Touch(t.cache.order, call.key), small.len, large.len);
  }

  /**
   LRU inclusion. Two stores of different size see the same calls: the smaller one's recency list
   stays a prefix of the larger one's, and both give the same answers.
   */
  lemma {:induction false} Inclusion<K(!new), V>(
      small: HybridMemoryLimiter<K>, large: HybridMemoryLimiter<K>,
      s: Backed<K, V>, t: Backed<K, V>, calls: seq<Call<K, V>>)
    requires small.LengthOnly() && large.LengthOnly() && 0 < small.len <= large.len
    requires s.Valid(small) && t.Valid(large) && AllPersisted(calls)
    requires s.stored == t.stored && s.cache.order <= t.cache.order
    ensures Trace(small, s, calls).0.cache.order <= Trace(large, t, calls).0.cache.order
    ensures |Trace(small, s, calls).0.cache.order| <= small.len
    ensures Trace(small, s, calls).0.stored == Trace(large, t, calls).0.stored
    ensures Trace(small, s, calls).1 == Trace(large, t, calls).1
    decreases |calls|
  {
    EvictionsAreInvisible(small, s, calls);
    EvictionsAreInvisible(large, t, calls);
    if calls != [] {
      StepValid(small, s, calls[0]);
      StepValid(large, t, calls[0]);
      InclusionStep(small, large, s, t, calls[0]);
      Inclusion(small, large, Step(small, s, calls[0]).0, Step(large, t, calls[0]).0, calls[1..]);
    }
  }

  /** The keys that calls without a `Discard` use, oldest use first. */
  function Uses<K(==), V>(stored: map<K, V>, calls: seq<Call<K, V>>): (r: seq<K>)
    decreases |calls|
  {
    if calls == [] then []
    else
      var c := calls[0];
      (if c.Create? || c.key in stored then [c.key] else [])
      + Uses(if c.Create? then stored[c.key := c.value] else stored, calls[1..])
  }

  /** The distinct keys of `uses`, latest use first, ahead of what `order` already held. */
  function NewestFirst<K(==, !new)>(order: seq<K>, uses: seq<K>): (r: seq<K>)
    decreases |uses|
  {
    if uses == [] then order else NewestFirst(Touch(order, uses[0]), uses[1..])
  }

  lemma {:induction false} NewestFirstCut<K(!new)>(order: seq<K>, uses: seq<K>, n: nat)
    requires NoDup(order)
    ensures Cut(NewestFirst(Cut(order, n), uses), n) == Cut(NewestFirst(order, uses), n)
    decreases |uses|
  {
    if uses != [] {
      var (a, b) := (Touch(Cut(order, n), uses[0]), Touch(order, uses[0]));
      TouchNoDup(order, uses[0]);
      assert NoDup(Cut(order, n));
      TouchNoDup(Cut(order, n), uses[0]);
      CutTouch(order, uses[0], n);
      NewestFirstCut(a, uses[1..], n);
      NewestFirstCut(b, uses[1..], n);
    }
  }

  /** Eviction is of the oldest: what stays is the `len` most recently used distinct keys. */
  lemma {:induction false} KeepsMostRecentlyUsed<K(!new), V>(
      limiter: HybridMemoryLimiter<K>, s: Backed<K, V>, calls: seq<Call<K, V>>)
    requires limiter.LengthOnly() && 0 < limiter.len
    requires s.Valid(limiter) && AllPersisted(calls)
    requires forall i :: 0 <= i < |calls| ==> !calls[i].Discard?
    ensures Trace(limiter, s, calls).0.cache.order
         == Cut(NewestFirst(s.cache.order, Uses(s.stored, calls)), limiter.len)
    decreases |calls|
  {
    if calls != [] {
      StepValid(limiter, s, calls[0]);
      StepOrder(limiter, s, calls[0]);
      var s1 := Step(limiter, s, calls[0]).0;
      KeepsMostRecentlyUsed(limiter, s1, calls[1..]);
      if calls[0].Create? || calls[0].key in s.stored {
        TouchNoDup(s.cache.order, calls[0].key);
        NewestFirstCut(Touch(s.cache.order, calls[0].key), Uses(s1.stored, calls[1..]), limiter.len);
        assert Uses(s.stored, calls)[1..] == Uses(s1.stored, calls[1..]);
      } else {
        assert Uses(s.stored, calls) == Uses(s1.stored, calls[1..]);
      }
    }
  }

  const NOTHING_STORED: Backed<int, int> := Backed(Lru([], map[], 0), map[])
  const UNPERSISTED: seq<Call<int, int>> := [Create(1, 10, false), Create(2, 20, false), Lookup(1)]

  /** Two entities the keystore never got, and then a use of the first. */
  lemma {:induction false} RunUnpersisted(limiter: HybridMemoryLimiter<int>)
    requires limiter.LengthOnly() && limiter.len > 0
    ensures NOTHING_STORED.Valid(limiter)
    ensures Trace(limiter, NOTHING_STORED, UNPERSISTED).0.cache.order == if limiter.len == 1 then [2] else [1, 2]
    ensures Trace(limiter, NOTHING_STORED, UNPERSISTED).1 == [None, None, if limiter.len == 1 then None else Some(10)]
  {
    var (first, second, third) := (UNPERSISTED[0], UNPERSISTED[1], UNPERSISTED[2]);
    assert UNPERSISTED == [first, second, third];
    RunThree(Machine(limiter), NOTHING_STORED, first, second, third);
    InsertKeeps(limiter, NOTHING_STORED.cache, 1, 10);
    var s1 := Step(limiter, NOTHING_STORED, first).0;
    assert s1.cache.order == [1];
    InsertKeeps(limiter, s1.cache, 2, 20);
    var s2 := Step(limiter, s1, second).0;
    hide Run, Lru.Insert;
    assert s2.cache.order == if limiter.len == 1 then [2] else [2, 1];
    assert 1 in s2.cache.entries <==> 1 in Elements(s2.cache.order);
    assert [2, 1][1..] == [1] && Without([1], 1) == [] && Without([2, 1], 1) == [2] + [];
  }

  /** Inclusion does depend on persistence: the smaller store loses an entity for good. */
  lemma {:induction false} InclusionNeedsPersistence(small: HybridMemoryLimiter<int>, large: HybridMemoryLimiter<int>)
    requires small.LengthOnly() && large.LengthOnly() && small.len == 1 && large.len == 2
    ensures NOTHING_STORED.Valid(small) && NOTHING_STORED.Valid(large)
    ensures !(Trace(small, NOTHING_STORED, UNPERSISTED).0.cache.order
              <= Trace(large, NOTHING_STORED, UNPERSISTED).0.cache.order)
    ensures Trace(small, NOTHING_STORED, UNPERSISTED).1 != Trace(large, NOTHING_STORED, UNPERSISTED).1
  {
    RunUnpersisted(small);
    RunUnpersisted(large);
    assert Trace(small, NOTHING_STORED, UNPERSISTED).1[2] == None;
  }
}

/**
 The least-recently-used store in front of the keystore (crypto/src/group_store.rs).

 The first half specifies it on values: a recency list, newest entry first, and the entries
 themselves. The second half is the class that holds shared handles, as the source does.
 */
module GroupStores {
  import opened Wrappers
  import opened Sequences

  /**
   What the memory accounting answers at one insertion: which entries other than the inserted one
   it throws out, and whether it refuses to let the map grow. Any answer is possible.
   */
  datatype MemoryPressure<K(==, !new)> = MemoryPressure(evict: set<K>, refuse: bool)

  /** At most `len` entries; the `n`-th insertion meets the memory pressure `mem(n)`. */
  datatype HybridMemoryLimiter<!K(==, !new)> =
    HybridMemoryLimiter(len: nat, mem: nat -> MemoryPressure<K>)
  {
    ghost predicate LengthOnly() {
      forall n :: mem(n) == MemoryPressure({}, false)
    }
  }

  /** The keys that stay, newest first, when `k` comes in. */
  function Kept<K(==, !new)>(limiter: HybridMemoryLimiter<K>, order: seq<K>, clock: nat, k: K): (r: seq<K>)
  {
    Minus(Cut([k] + Without(order, k), limiter.len), limiter.mem(clock).evict - {k})
  }

  lemma {:induction false} KeptNewest<K(!new)>(limiter: HybridMemoryLimiter<K>, order: seq<K>, clock: nat, k: K)
    requires NoDup(order) && limiter.len > 0
    ensures var kept := Kept(limiter, order, clock, k);
      && NoDup(kept) && 0 < |kept| <= limiter.len && kept[0] == k
      && (forall x :: x in kept ==> x == k || x in order)
      && (limiter.LengthOnly() ==> kept == Cut([k] + Without(order, k), limiter.len))
  {
    WithoutNoDup(order, k);
    NoDupAppend([k], Without(order, k));
    var cut := Cut([k] + Without(order, k), limiter.len);
    var evict := limiter.mem(clock).evict - {k};
    assert forall i :: 0 <= i < |cut| ==> cut[i] == ([k] + Without(order, k))[i];
    MinusNoDup(cut, evict);
    assert cut[0] == k && cut == [k] + cut[1..];
    if limiter.LengthOnly() {
      assert limiter.mem(clock) == MemoryPressure({}, false);
      MinusNothing(cut, evict);
    }
  }

  /** The store as a value. `clock` counts the insertions so far. */
  datatype Lru<K(==, !new), V> = Lru(order: seq<K>, entries: map<K, V>, clock: nat) {

    ghost predicate Valid(limiter: HybridMemoryLimiter<K>) {
      NoDup(order) && Elements(order) == entries.Keys && |order| <= limiter.len
    }

    function Promote(k: K): (c: Lru<K, V>)
      requires k in entries
      ensures c.entries == entries && c.clock == clock
      ensures k in order ==> Elements(c.order) == Elements(order)
    {
      Lru([k] + Without(order, k), entries, clock)
    }

    /** Entries are thrown out from the old end, then wherever memory pressure asks for it. */
    function Insert(limiter: HybridMemoryLimiter<K>, k: K, v: V): (c: Lru<K, V>)
    {
      if limiter.len == 0 then this.(clock := clock + 1)
      else
        var kept := Kept(limiter, order, clock, k);
        Lru(
          kept,
          map x | x in Elements(kept) && (x == k || x in entries) :: if x == k then v else entries[x],
          clock + 1)
    }

    /** One after the other, as `get_fetch_all` puts in what it has fetched. */
    function InsertAll(limiter: HybridMemoryLimiter<K>, items: seq<(K, V)>): (c: Lru<K, V>)
      decreases |items|
    {
      if items == [] then this else Insert(limiter, items[0].0, items[0].1).InsertAll(limiter, items[1..])
    }

    /** Never makes room: it is refused instead. */
    function TryInsert(limiter: HybridMemoryLimiter<K>, k: K, v: V): (r: Option<Lru<K, V>>)
    {
      if k in entries then
        Some(Lru([k] + Without(order, k), entries[k := v], clock + 1))
      else if |order| < limiter.len && !limiter.mem(clock).refuse then
        Some(Lru([k] + order, entries[k := v], clock + 1))
      else
        None
    }

    function Remove(k: K): (c: Lru<K, V>)
    {
      Lru(Without(order, k), entries - {k}, clock)
    }

    /** Writing through the handle of a cached entry does not count as a use of it. */
    function Write(k: K, v: V): (c: Lru<K, V>)
    {
      if k in entries then this.(entries := entries[k := v]) else this
    }

    /** A hit, or the entity found in the keystore and inserted, or nothing. */
    function GetFetch<E>(limiter: HybridMemoryLimiter<K>, k: K, fetch: K -> Result<Option<V>, E>)
      : (r: (Lru<K, V>, Result<Option<V>, E>))
    {
      if k in entries then (Promote(k), Ok(Some(entries[k])))
      else
        match fetch(k)
        case Err(e) => (this, Err(e))
        case Ok(None) => (this, Ok(None))
        case Ok(Some(v)) => (Insert(limiter, k, v), Ok(Some(v)))
    }
  }

  /** Only the reading of this one key matters, and on a hit not even that. */
  lemma {:induction false} GetFetchReads<K(!new), V, E>(
      limiter: HybridMemoryLimiter<K>, c: Lru<K, V>, k: K, f: K -> Result<Option<V>, E>, g: K -> Result<Option<V>, E>)
    requires k in c.entries || f(k) == g(k)
    ensures c.GetFetch(limiter, k, f) == c.GetFetch(limiter, k, g)
  {
  }

  lemma {:induction false} PromoteValid<K(!new), V>(limiter: HybridMemoryLimiter<K>, c: Lru<K, V>, k: K)
    requires c.Valid(limiter) && k in c.entries
    ensures c.Promote(k).Valid(limiter)
  {
    WithoutNoDup(c.order, k);
    WithoutLength(c.order, k);
    NoDupAppend([k], Without(c.order, k));
  }

  /**
   With room for at least one entry the inserted one is the newest afterwards, the limit holds,
   the others keep their values, and with no memory pressure exactly the oldest ones are gone.
   */
  lemma {:induction false} InsertKeeps<K(!new), V>(limiter: HybridMemoryLimiter<K>, c: Lru<K, V>, k: K, v: V)
    requires c.Valid(limiter) && limiter.len > 0
    ensures var c' := c.Insert(limiter, k, v);
      && c'.Valid(limiter)
      && c'.order[..1] == [k] && k in c'.entries && c'.entries[k] == v
      && (forall x :: x in c'.entries && x != k ==> x in c.entries && c'.entries[x] == c.entries[x])
      && (limiter.LengthOnly() ==> c'.order == Cut([k] + Without(c.order, k), limiter.len))
  {
    KeptNewest(limiter, c.order, c.clock, k);
  }

  lemma {:induction false} RemoveValid<K(!new), V>(limiter: HybridMemoryLimiter<K>, c: Lru<K, V>, k: K)
    requires c.Valid(limiter)
    ensures c.Remove(k).Valid(limiter)
  {
    WithoutNoDup(c.order, k);
  }

  /** An insertion that is not refused adds the entry, and throws none out. */
  lemma {:induction false} TryInsertValid<K(!new), V>(limiter: HybridMemoryLimiter<K>, c: Lru<K, V>, k: K, v: V)
    requires c.Valid(limiter)
    ensures c.TryInsert(limiter, k, v).Some? ==>
      var c' := c.TryInsert(limiter, k, v).value;
      c'.Valid(limiter) && c'.entries == c.entries[k := v] && c'.order == [k] + Without(c.order, k)
  {
    WithoutNoDup(c.order, k);
    NoDupAppend([k], Without(c.order, k));
    if k in c.entries {
      WithoutLength(c.order, k);
    } else {
      assert k !in Elements(c.order);
    }
  }

  /** A refusal is for want of room or memory. */
  lemma {:induction false} TryInsertRefuses<K(!new), V>(limiter: HybridMemoryLimiter<K>, c: Lru<K, V>, k: K, v: V)
    requires c.Valid(limiter)
    ensures c.TryInsert(limiter, k, v).None? <==>
      k !in c.entries && (|c.entries| >= limiter.len || limiter.mem(c.clock).refuse)
  {
    NoDupCardinality(c.order);
    assert |Elements(c.order)| == |c.entries|;
  }

  lemma {:induction false} InsertAllAppend<K(!new), V>(
      limiter: HybridMemoryLimiter<K>, c: Lru<K, V>, items: seq<(K, V)>, last: (K, V))
    ensures c.InsertAll(limiter, items + [last]) == c.InsertAll(limiter, items).Insert(limiter, last.0, last.1)
    decreases |items|
  {
    hide Lru.Insert;
    if items == [] {
      assert [] + [last] == [last] && [last][1..] == [];
    } else {
      assert (items + [last])[1..] == items[1..] + [last];
      InsertAllAppend(limiter, c.Insert(limiter, items[0].0, items[0].1), items[1..], last);
    }
  }

  /** After all of them went in, an entry under one of their keys is that one, and any other is as it was. */
  lemma {:induction false} InsertAllFinds<K(!new), V>(
      limiter: HybridMemoryLimiter<K>, c: Lru<K, V>, items: seq<(K, V)>, x: K)
    requires c.Valid(limiter) && limiter.len > 0 && NoDup(Firsts(items))
    ensures x in c.InsertAll(limiter, items).entries ==>
      var v := c.InsertAll(limiter, items).entries[x];
      && (forall i :: 0 <= i < |items| && items[i].0 == x ==> v == items[i].1)
      && (x !in Firsts(items) ==> x in c.entries && c.entries[x] == v)
    decreases |items|
  {
    if items != [] {
      var (first, rest) := (items[0], items[1..]);
      InsertKeeps(limiter, c, first.0, first.1);
      hide Lru.Insert;
      assert Firsts(rest) == Firsts(items)[1..];
      assert Firsts(items) == [first.0] + Firsts(rest);
      InsertAllFinds(limiter, c.Insert(limiter, first.0, first.1), rest, x);
      assert forall i :: 1 <= i < |items| ==> items[i] == rest[i - 1];
      assert first.0 !in Firsts(rest);
    }
  }

  /** The shared, lockable value behind a handle. */
  class GroupStoreValue<V> {
    var value: V

    constructor (value: V)
      ensures this.value == value
    {
      this.value := value;
    }
  }

  /** What a store of handles holds at this moment. */
  ghost function Deref<K(!new), V>(c: Lru<K, GroupStoreValue<V>>): (d: Lru<K, V>)
    reads c.entries.Values
    ensures d.order == c.order && d.clock == c.clock && d.entries.Keys == c.entries.Keys
  {
    Lru(c.order, map k | k in c.entries :: c.entries[k].value, c.clock)
  }

  /** No two keys share a handle, so writing through one handle changes one entry. */
  ghost predicate Unshared<K(!new), V>(c: Lru<K, GroupStoreValue<V>>) {
    forall j, k :: j in c.entries && k in c.entries && j != k ==> c.entries[j] != c.entries[k]
  }

  lemma {:induction false} InsertUnshared<K(!new), V>(
      limiter: HybridMemoryLimiter<K>, c: Lru<K, GroupStoreValue<V>>, k: K, handle: GroupStoreValue<V>)
    requires c.Valid(limiter) && Unshared(c) && handle !in c.entries.Values
    ensures c.Insert(limiter, k, handle).Valid(limiter) && Unshared(c.Insert(limiter, k, handle))
    ensures c.Insert(limiter, k, handle).entries.Values <= c.entries.Values + {handle}
    ensures limiter.len > 0 ==>
      k in c.Insert(limiter, k, handle).entries && c.Insert(limiter, k, handle).entries[k] == handle
  {
    if limiter.len > 0 {
      InsertKeeps(limiter, c, k, handle);
      hide Lru.Insert;
    }
  }

  lemma {:induction false} DerefInsert<K(!new), V>(
      limiter: HybridMemoryLimiter<K>, c: Lru<K, GroupStoreValue<V>>, k: K, handle: GroupStoreValue<V>)
    ensures Deref(c.Insert(limiter, k, handle)) == Deref(c).Insert(limiter, k, handle.value)
  {
    hide Kept;
    if limiter.len > 0 {
      assert Deref(c.Insert(limiter, k, handle)).entries == Deref(c).Insert(limiter, k, handle.value).entries;
    }
  }

  lemma {:induction false} TryInsertUnshared<K(!new), V>(
      limiter: HybridMemoryLimiter<K>, c: Lru<K, GroupStoreValue<V>>, k: K, handle: GroupStoreValue<V>)
    requires c.Valid(limiter) && Unshared(c) && handle !in c.entries.Values
    requires c.TryInsert(limiter, k, handle).Some?
    ensures var c' := c.TryInsert(limiter, k, handle).value;
      c'.Valid(limiter) && Unshared(c') && c'.entries.Values <= c.entries.Values + {handle}
  {
    TryInsertValid(limiter, c, k, handle);
    hide Lru.TryInsert;
  }

  lemma {:induction false} DerefTryInsert<K(!new), V>(
      limiter: HybridMemoryLimiter<K>, c: Lru<K, GroupStoreValue<V>>, k: K, handle: GroupStoreValue<V>)
    requires c.TryInsert(limiter, k, handle).Some?
    ensures Deref(c).TryInsert(limiter, k, handle.value) == Some(Deref(c.TryInsert(limiter, k, handle).value))
  {
    var c' := c.TryInsert(limiter, k, handle).value;
    assert c'.entries == c.entries[k := handle];
    assert Deref(c').entries == Deref(c).entries[k := handle.value];
  }

  lemma {:induction false} DerefInsertAll<K(!new), V>(
      limiter: HybridMemoryLimiter<K>, c: Lru<K, GroupStoreValue<V>>, handles: seq<(K, GroupStoreValue<V>)>,
      items: seq<(K, V)>)
    requires |handles| == |items|
    requires forall i :: 0 <= i < |items| ==> handles[i].0 == items[i].0 && handles[i].1.value == items[i].1
    ensures Deref(c.InsertAll(limiter, handles)) == Deref(c).InsertAll(limiter, items)
    decreases |handles|
  {
    hide Lru.Insert, Deref;
    if handles != [] {
      DerefInsert(limiter, c, handles[0].0, handles[0].1);
      DerefInsertAll(limiter, c.Insert(limiter, handles[0].0, handles[0].1), handles[1..], items[1..]);
    }
  }

  lemma {:induction false} DerefRemove<K(!new), V>(limiter: HybridMemoryLimiter<K>, c: Lru<K, GroupStoreValue<V>>, k: K)
    requires c.Valid(limiter) && Unshared(c)
    ensures var c' := c.Remove(k);
      && c'.Valid(limiter) && Unshared(c') && c'.entries.Values <= c.entries.Values
      && Deref(c') == Deref(c).Remove(k)
  {
    RemoveValid(limiter, c, k);
    assert Deref(c.Remove(k)).entries == Deref(c).Remove(k).entries;
  }

  class GroupStore<K(==, !new), V> {
    const limiter: HybridMemoryLimiter<K>
    var lru: Lru<K, GroupStoreValue<V>>

    ghost predicate Valid()
      reads this
    {
      lru.Valid(limiter) && Unshared(lru)
    }

    /** Every handle the store holds. */
    ghost function Handles(): set<GroupStoreValue<V>>
      reads this
    {
      lru.entries.Values
    }

    ghost function View(): (c: Lru<K, V>)
      reads this, Handles()
    {
      Deref(lru)
    }

    /** `clock` says how many insertions the limiter has seen already. */
    constructor (limiter: HybridMemoryLimiter<K>, clock: nat)
      ensures Valid() && this.limiter == limiter && Handles() == {}
      ensures View() == Lru([], map[], clock)
    {
      this.limiter := limiter;
      lru := Lru([], map[], clock);
    }

    /** Peeks: the recency of the entry does not change. */
    method ContainsKey(k: K) returns (r: bool)
      ensures r <==> k in View().entries
    {
      r := k in lru.entries;
    }

    method Get(k: K) returns (r: Option<GroupStoreValue<V>>)
      requires Valid()
      modifies this
      ensures Valid() && lru.entries == old(lru.entries)
      ensures r == if k in lru.entries then Some(lru.entries[k]) else None
      ensures View() == if k in lru.entries then old(View()).Promote(k) else old(View())
    {
      if k !in lru.entries { return None; }
      PromoteValid(limiter, lru, k);
      lru := lru.Promote(k);
      r := Some(lru.entries[k]);
    }

    method InsertPrepped(k: K, handle: GroupStoreValue<V>)
      requires Valid() && handle !in Handles()
      modifies this
      ensures Valid() && Handles() <= old(Handles()) + {handle}
      ensures lru == old(lru).Insert(limiter, k, handle)
      ensures View() == old(View()).Insert(limiter, k, handle.value)
      ensures limiter.len > 0 ==> k in lru.entries && lru.entries[k] == handle
    {
      hide Lru.Insert;
      InsertUnshared(limiter, lru, k, handle);
      DerefInsert(limiter, lru, k, handle);
      lru := lru.Insert(limiter, k, handle);
    }

    method Insert(k: K, entity: V)
      requires Valid()
      modifies this
      ensures Valid() && fresh(Handles() - old(Handles()))
      ensures View() == old(View()).Insert(limiter, k, entity)
    {
      var handle := new GroupStoreValue(entity);
      InsertPrepped(k, handle);
    }

    method TryInsert(k: K, entity: V) returns (r: Result<(), V>)
      requires Valid()
      modifies this
      ensures Valid() && fresh(Handles() - old(Handles()))
      ensures match old(View()).TryInsert(limiter, k, entity)
              case Some(c) => r == Ok(()) && View() == c
              case None => r == Err(entity) && View() == old(View())
    {
      var handle := new GroupStoreValue(entity);
      match lru.TryInsert(limiter, k, handle)
      case Some(c) =>
        TryInsertUnshared(limiter, lru, k, handle);
        DerefTryInsert(limiter, lru, k, handle);
        lru := c;
        r := Ok(());
      case None =>
        r := Err(entity);
    }

    method Remove(k: K) returns (r: Option<GroupStoreValue<V>>)
      requires Valid()
      modifies this
      ensures Valid() && Handles() <= old(Handles())
      ensures View() == old(View()).Remove(k)
      ensures r == if k in old(lru.entries) then Some(old(lru.entries)[k]) else None
    {
      DerefRemove(limiter, lru, k);
      r := if k in lru.entries then Some(lru.entries[k]) else None;
      lru := lru.Remove(k);
    }

    /** `fetch` is what reading the keystore at this moment answers. */
    method GetFetch<E>(k: K, fetch: K -> Result<Option<V>, E>)
      returns (r: Result<Option<GroupStoreValue<V>>, E>)
      requires Valid()
      modifies this
      ensures Valid() && fresh(Handles() - old(Handles()))
      ensures View() == old(View()).GetFetch(limiter, k, fetch).0
      ensures match old(View()).GetFetch(limiter, k, fetch).1
              case Err(e) => r == Err(e)
              case Ok(None) => r == Ok(None)
              case Ok(Some(v)) => r.Ok? && r.value.Some? && r.value.value.value == v
                                  && (limiter.len > 0 ==> k in lru.entries && r.value.value == lru.entries[k])
    {
      hide Lru.Insert, Lru.Promote;
      ghost var before := View();
      if k in lru.entries {
        var hit := Get(k);
        return Ok(hit);
      }
      var fetched := fetch(k);
      assert before.GetFetch(limiter, k, fetch) ==
        if fetched.Ok? && fetched.value.Some? then (before.Insert(limiter, k, fetched.value.value), fetched)
        else (before, fetched);
      if fetched.Err? {
        r := Err(fetched.error);
      } else if fetched.value.None? {
        r := Ok(None);
      } else {
        var handle := new GroupStoreValue(fetched.value.value);
        InsertPrepped(k, handle);
        r := Ok(Some(handle));
      }
    }

    /** Puts the entity in under a new handle. */
    method InsertNew(k: K, entity: V) returns (handle: GroupStoreValue<V>)
      requires Valid()
      modifies this
      ensures Valid() && fresh(handle) && handle.value == entity && Handles() <= old(Handles()) + {handle}
      ensures lru == old(lru).Insert(limiter, k, handle)
    {
      handle := new GroupStoreValue(entity);
      InsertPrepped(k, handle);
    }

    /** Every entity fetched from the keystore gets a new handle, cached ones too; all are returned. */
    method GetFetchAll<E>(fetched: Result<seq<(K, V)>, E>) returns (r: Result<seq<GroupStoreValue<V>>, E>)
      requires Valid()
      modifies this
      ensures Valid() && fresh(Handles() - old(Handles()))
      ensures fetched.Err? ==> r == Err(fetched.error) && View() == old(View())
      ensures fetched.Ok? ==>
        && View() == old(View()).InsertAll(limiter, fetched.value)
        && r.Ok? && |r.value| == |fetched.value|
        && lru == old(lru).InsertAll(limiter, Zip(Firsts(fetched.value), r.value))
        && (forall i :: 0 <= i < |r.value| ==> fresh(r.value[i]) && r.value[i].value == fetched.value[i].1)
        && (forall i, j :: 0 <= i < j < |r.value| ==> r.value[i] != r.value[j])
    {
      hide Lru.Insert, Lru.Valid, Deref;
      if fetched.Err? { return Err(fetched.error); }
      var items := fetched.value;
      var handles: seq<GroupStoreValue<V>> := [];
      ghost var before := lru;
      var i := 0;
      assert items[..0] == [];
      while i < |items|
        invariant 0 <= i <= |items| && |handles| == i
        invariant Valid() && fresh(Handles() - old(Handles()))
        invariant lru == before.InsertAll(limiter, Zip(Firsts(items[..i]), handles))
        invariant forall j :: 0 <= j < i ==> fresh(handles[j]) && handles[j].value == items[j].1
        invariant forall j, k :: 0 <= j < k < i ==> handles[j] != handles[k]
      {
        var handle := InsertNew(items[i].0, items[i].1);
        InsertAllAppend(limiter, before, Zip(Firsts(items[..i]), handles), (items[i].0, handle));
        ZipOneMore(items, i, handles, handle);
        handles := handles + [handle];
        i := i + 1;
      }
      assert items[..i] == items;
      DerefInsertAll(limiter, before, Zip(Firsts(items), handles), items);
      r := Ok(handles);
    }
  }

  lemma {:induction false} ZipOneMore<K, V, H>(items: seq<(K, V)>, i: nat, handles: seq<H>, handle: H)
    requires i < |items| && |handles| == i
    ensures Zip(Firsts(items[..i + 1]), handles + [handle]) == Zip(Firsts(items[..i]), handles) + [(items[i].0, handle)]
  {
  }
}

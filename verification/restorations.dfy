/**
 Filling the store from the rows of a table, as both clients do when they start: which rows are taken
 into memory, and when a row that cannot be read makes it fail.
 */
module Restorations {
  import opened Wrappers
  import opened Sequences
  import opened Tables
  import opened GroupStores
  import P = ProteusSpec
  import C = Conversations
  import ConversationLaws

  /** Rows are read and taken in, in order, until one finds no room; one that cannot be read ends it. */
  function Refill<K(==, !new), R, V>(
    limiter: HybridMemoryLimiter<K>, load: (K, R) -> Option<V>, rows: seq<(K, R)>, cache: Lru<K, V>)
    : (r: Option<Lru<K, V>>)
    decreases |rows|
  {
    if rows == [] then Some(cache)
    else
      match load(rows[0].0, rows[0].1)
      case None => None
      case Some(v) =>
        match cache.TryInsert(limiter, rows[0].0, v)
        case None => Some(cache)
        case Some(cache') => Refill(limiter, load, rows[1..], cache')
  }

  /** An insertion that is the `clock`-th finds room among `size` others. */
  predicate Room<K(!new)>(limiter: HybridMemoryLimiter<K>, size: nat, clock: nat) {
    size < limiter.len && !limiter.mem(clock).refuse
  }

  /** The first `n` rows can be read and find room. */
  ghost predicate Taken<K(!new), R, V>(
    limiter: HybridMemoryLimiter<K>, load: (K, R) -> Option<V>, rows: seq<(K, R)>, size: nat, clock: nat, n: nat)
  {
    n <= |rows|
    && forall j :: 0 <= j < n ==> load(rows[j].0, rows[j].1).Some? && Room(limiter, size + j, clock + j)
  }

  lemma {:induction false} TakenCons<K(!new), R(!new), V>(
      limiter: HybridMemoryLimiter<K>, load: (K, R) -> Option<V>, rows: seq<(K, R)>, size: nat, clock: nat, n: nat)
    requires rows != [] && load(rows[0].0, rows[0].1).Some? && Room(limiter, size, clock)
    requires Taken(limiter, load, rows[1..], size + 1, clock + 1, n)
    ensures Taken(limiter, load, rows, size, clock, n + 1)
  {
    assert forall j :: 1 <= j < |rows| ==> rows[j] == rows[1..][j - 1];
    forall j | 0 <= j < n + 1
      ensures load(rows[j].0, rows[j].1).Some? && Room(limiter, size + j, clock + j)
    {
      if j > 0 {
        assert rows[1..][j - 1] == rows[j] && size + 1 + (j - 1) == size + j && clock + 1 + (j - 1) == clock + j;
      }
    }
  }

  /** What is in memory afterwards: the rows taken, the last one newest, ahead of what was there. */
  ghost predicate Holds<K(!new), R, V>(
    c: Lru<K, V>, load: (K, R) -> Option<V>, rows: seq<(K, R)>, before: seq<K>, n: nat)
  {
    && n <= |rows|
    && c.order == Reverse(Firsts(rows[..n])) + before
    && forall j :: 0 <= j < n ==>
         rows[j].0 in c.entries && Some(c.entries[rows[j].0]) == load(rows[j].0, rows[j].1)
  }

  lemma {:induction false} FirstTaken<K(!new), R(!new), V>(
      limiter: HybridMemoryLimiter<K>, rows: seq<(K, R)>, cache: Lru<K, V>, v: V)
    requires cache.Valid(limiter) && rows != [] && NoDup(Firsts(rows))
    requires forall i :: 0 <= i < |rows| ==> rows[i].0 !in cache.entries
    ensures var r := cache.TryInsert(limiter, rows[0].0, v);
      && (r.Some? <==> Room(limiter, |cache.order|, cache.clock))
      && (r.Some? ==>
            && r.value.Valid(limiter) && |r.value.order| == |cache.order| + 1 && r.value.clock == cache.clock + 1
            && r.value.order == [rows[0].0] + cache.order && r.value.entries == cache.entries[rows[0].0 := v]
            && NoDup(Firsts(rows[1..]))
            && forall i :: 0 <= i < |rows[1..]| ==> rows[1..][i].0 !in r.value.entries)
  {
    TryInsertValid(limiter, cache, rows[0].0, v);
    var rest := rows[1..];
    assert Firsts(rest) == Firsts(rows)[1..];
    forall i | 0 <= i < |rest|
      ensures rest[i].0 != rows[0].0 && rest[i].0 !in cache.entries
    {
      assert Firsts(rows)[i + 1] == rest[i].0 && Firsts(rows)[0] == rows[0].0;
    }
  }

  lemma {:induction false} HoldsCons<K(!new), R(!new), V>(
      c: Lru<K, V>, load: (K, R) -> Option<V>, rows: seq<(K, R)>, before: seq<K>, n: nat)
    requires rows != [] && Holds(c, load, rows[1..], [rows[0].0] + before, n)
    requires rows[0].0 in c.entries && Some(c.entries[rows[0].0]) == load(rows[0].0, rows[0].1)
    ensures Holds(c, load, rows, before, n + 1)
  {
    var (rest, k) := (rows[1..], rows[0].0);
    assert Firsts(rows[..n + 1]) == [k] + Firsts(rest[..n]);
    var tail := Firsts(rest[..n]);
    assert ([k] + tail)[1..] == tail;
    assert Reverse([k] + tail) == Reverse(tail) + [k];
    Regroup(Reverse(tail), [k], before);
    forall j | 0 <= j < n + 1
      ensures rows[j].0 in c.entries && Some(c.entries[rows[j].0]) == load(rows[j].0, rows[j].1)
    {
      if j > 0 {
        assert rest[j - 1] == rows[j];
      }
    }
  }

  /** Entries that are there stay when other keys come in. */
  lemma {:induction false} RefillKeeps<K(!new), R(!new), V>(
      limiter: HybridMemoryLimiter<K>, load: (K, R) -> Option<V>, rows: seq<(K, R)>, cache: Lru<K, V>, k: K)
    requires cache.Valid(limiter) && k in cache.entries && forall i :: 0 <= i < |rows| ==> rows[i].0 != k
    ensures var r := Refill(limiter, load, rows, cache);
      r.Some? ==> k in r.value.entries && r.value.entries[k] == cache.entries[k]
    decreases |rows|
  {
    if rows != [] && load(rows[0].0, rows[0].1).Some? {
      var v := load(rows[0].0, rows[0].1).value;
      TryInsertValid(limiter, cache, rows[0].0, v);
      if cache.TryInsert(limiter, rows[0].0, v).Some? {
        RefillKeeps(limiter, load, rows[1..], cache.TryInsert(limiter, rows[0].0, v).value, k);
      }
      hide Lru.TryInsert;
    }
  }

  /** It stops at `n`: there it fails if the row cannot be read, and otherwise the rows before it are in memory. */
  ghost predicate StopsAfter<K(!new), R, V>(
    limiter: HybridMemoryLimiter<K>, load: (K, R) -> Option<V>, rows: seq<(K, R)>, cache: Lru<K, V>, n: nat)
  {
    var r := Refill(limiter, load, rows, cache);
    && Taken(limiter, load, rows, |cache.order|, cache.clock, n)
    && (n < |rows| && load(rows[n].0, rows[n].1).Some? ==> !Room(limiter, |cache.order| + n, cache.clock + n))
    && (r.None? <==> n < |rows| && load(rows[n].0, rows[n].1).None?)
    && (r.Some? ==> Holds(r.value, load, rows, cache.order, n))
  }

  lemma {:induction false} RefillIs<K(!new), R(!new), V>(
      limiter: HybridMemoryLimiter<K>, load: (K, R) -> Option<V>, rows: seq<(K, R)>, cache: Lru<K, V>)
    returns (n: nat)
    requires cache.Valid(limiter) && NoDup(Firsts(rows))
    requires forall i :: 0 <= i < |rows| ==> rows[i].0 !in cache.entries
    ensures StopsAfter(limiter, load, rows, cache, n)
    decreases |rows|
  {
    if rows == [] || load(rows[0].0, rows[0].1).None? {
      NothingHeld(load, rows, cache);
      n := 0;
    } else {
      var v := load(rows[0].0, rows[0].1).value;
      FirstTaken(limiter, rows, cache, v);
      var inserted := cache.TryInsert(limiter, rows[0].0, v);
      if inserted.None? {
        NothingHeld(load, rows, cache);
        hide Lru.TryInsert;
        n := 0;
      } else {
        hide *;
        var m := RefillIs(limiter, load, rows[1..], inserted.value);
        RefillGoesOn(limiter, load, rows, cache, m);
        n := m + 1;
      }
    }
  }

  lemma {:induction false} RefillGoesOn<K(!new), R(!new), V>(
      limiter: HybridMemoryLimiter<K>, load: (K, R) -> Option<V>, rows: seq<(K, R)>, cache: Lru<K, V>, m: nat)
    requires cache.Valid(limiter) && NoDup(Firsts(rows)) && rows != []
    requires forall i :: 0 <= i < |rows| ==> rows[i].0 !in cache.entries
    requires load(rows[0].0, rows[0].1).Some?
    requires cache.TryInsert(limiter, rows[0].0, load(rows[0].0, rows[0].1).value).Some?
    requires var cache' := cache.TryInsert(limiter, rows[0].0, load(rows[0].0, rows[0].1).value).value;
      StopsAfter(limiter, load, rows[1..], cache', m)
    ensures StopsAfter(limiter, load, rows, cache, m + 1)
  {
    var v := load(rows[0].0, rows[0].1).value;
    FirstTaken(limiter, rows, cache, v);
    var cache' := cache.TryInsert(limiter, rows[0].0, v).value;
    var r := Refill(limiter, load, rows, cache);
    assert r == Refill(limiter, load, rows[1..], cache');
    hide Lru.TryInsert, Lru.Valid, Refill, Taken, Holds, Room, NoDup;
    assert m < |rows[1..]| ==> rows[1..][m] == rows[m + 1];
    TakenCons(limiter, load, rows, |cache.order|, cache.clock, m);
    if r.Some? {
      RefillKeeps(limiter, load, rows[1..], cache', rows[0].0);
      HoldsCons(r.value, load, rows, cache.order, m);
    }
  }

  lemma {:induction false} NothingHeld<K(!new), R(!new), V>(
      load: (K, R) -> Option<V>, rows: seq<(K, R)>, cache: Lru<K, V>)
    ensures Holds(cache, load, rows, cache.order, 0)
  {
    assert rows[..0] == [];
    assert Firsts(rows[..0]) == [];
    assert Reverse(Firsts(rows[..0])) == [];
  }

  /** A row that cannot be read is reached: all before it can be read and find room. */
  ghost predicate Spoilt<K(!new), R, V>(
    limiter: HybridMemoryLimiter<K>, load: (K, R) -> Option<V>, rows: seq<(K, R)>, clock: nat, i: nat)
  {
    i < |rows| && load(rows[i].0, rows[i].1).None? && Taken(limiter, load, rows, 0, clock, i)
  }

  lemma {:induction false} RefillFails<K(!new), R(!new), V>(
      limiter: HybridMemoryLimiter<K>, load: (K, R) -> Option<V>, rows: seq<(K, R)>, clock: nat)
    requires NoDup(Firsts(rows))
    ensures Refill(limiter, load, rows, Lru([], map[], clock)).None? <==>
      exists i: nat :: Spoilt(limiter, load, rows, clock, i)
  {
    var n := RefillIs(limiter, load, rows, Lru([], map[], clock));
    if n < |rows| && load(rows[n].0, rows[n].1).None? {
      assert Spoilt(limiter, load, rows, clock, n);
    }
    hide Refill;
    forall i: nat | Spoilt(limiter, load, rows, clock, i)
      ensures n < |rows| && load(rows[n].0, rows[n].1).None?
    {
      StopsAt(limiter, load, rows, clock, n, i);
    }
  }

  /** Nothing stops it before the row that cannot be read, and nothing is taken after that. */
  lemma {:induction false} StopsAt<K(!new), R(!new), V>(
      limiter: HybridMemoryLimiter<K>, load: (K, R) -> Option<V>, rows: seq<(K, R)>, clock: nat, n: nat, i: nat)
    requires Spoilt(limiter, load, rows, clock, i) && Taken(limiter, load, rows, 0, clock, n)
    requires n < |rows| && load(rows[n].0, rows[n].1).Some? ==> !Room(limiter, n, clock + n)
    ensures n < |rows| && load(rows[n].0, rows[n].1).None?
  {
    hide Room;
  }

  /** From an empty store: it fails exactly when it is spoilt; otherwise it takes the rows up to one without room. */
  lemma {:induction false} RefillResult<K(!new), R(!new), V>(
      limiter: HybridMemoryLimiter<K>, load: (K, R) -> Option<V>, rows: seq<(K, R)>, clock: nat) returns (n: nat)
    requires NoDup(Firsts(rows))
    ensures var r := Refill(limiter, load, rows, Lru([], map[], clock));
      && (r.None? <==> exists i: nat :: Spoilt(limiter, load, rows, clock, i))
      && (r.Some? ==>
            && Taken(limiter, load, rows, 0, clock, n)
            && (n < |rows| ==> !Room(limiter, n, clock + n))
            && Holds(r.value, load, rows, [], n))
  {
    n := RefillIs(limiter, load, rows, Lru([], map[], clock));
    hide Refill, Spoilt, Holds, Taken, Room, NoDup;
    RefillFails(limiter, load, rows, clock);
  }

  // ----- Proteus sessions -----

  function LoadSession(ratchet: P.Ratchet): (P.Id, P.Bytes) -> Option<P.Conversation>
  {
    (id, raw) =>
      if ratchet.deserialise(raw).None? then None else Some(P.Conversation(id, ratchet.deserialise(raw).value))
  }

  lemma {:induction false} SessionsRefill(env: P.Env, rows: seq<(P.Id, P.Bytes)>, cache: Lru<P.Id, P.Conversation>)
    ensures P.Restore(env, rows, cache) ==
      var r := Refill(env.limiter, LoadSession(env.ratchet), rows, cache);
      if r.None? then Err(P.ProteusError) else Ok(r.value)
    decreases |rows|
  {
    hide Lru.TryInsert;
    if rows != [] && env.ratchet.deserialise(rows[0].1).Some? {
      var conv := P.Conversation(rows[0].0, env.ratchet.deserialise(rows[0].1).value);
      var inserted := cache.TryInsert(env.limiter, rows[0].0, conv);
      if inserted.Some? {
        SessionsRefill(env, rows[1..], inserted.value);
      }
    }
  }

  lemma {:induction false} SessionRowsOnce(rows: Table<P.Id, P.Bytes>)
    ensures NoDup(Firsts(rows.FindAll()))
  {
    assert Firsts(rows.FindAll()) == rows.order;
  }

  /**
   A reload reads the sessions in the order of the table. It takes the first `n` into memory, up to one
   that finds no room; a session that cannot be read fails it exactly when it is reached, and then, as when
   the table cannot be listed, the sessions in memory stay. A client starts in the same way.
   */
  lemma {:induction false} ReloadedSessions(env: P.Env, c: P.Central) returns (n: nat)
    ensures var rows := c.store.sessions.FindAll();
      var spoilt := exists i: nat :: Spoilt(env.limiter, LoadSession(env.ratchet), rows, c.sessions.clock, i);
      var (c', reply) := P.Step(env, c, P.ReloadSessions);
      && c'.store == P.Accessed(c.store)
      && (env.fails(c.store.accesses) ==> reply == P.Failed(P.KeystoreError) && c'.sessions == c.sessions)
      && (!env.fails(c.store.accesses) && spoilt ==>
            reply == P.Failed(P.ProteusError) && c'.sessions == c.sessions)
      && (!env.fails(c.store.accesses) && !spoilt ==>
            && reply == P.Done
            && Taken(env.limiter, LoadSession(env.ratchet), rows, 0, c.sessions.clock, n)
            && (n < |rows| ==> !Room(env.limiter, n, c.sessions.clock + n))
            && Holds(c'.sessions, LoadSession(env.ratchet), rows, [], n))
  {
    hide *;
    ReloadIs(env, c);
    SessionRowsOnce(c.store.sessions);
    SessionsRefill(env, c.store.sessions.FindAll(), Lru([], map[], c.sessions.clock));
    n := RefillResult(env.limiter, LoadSession(env.ratchet), c.store.sessions.FindAll(), c.sessions.clock);
  }

  lemma {:induction false} ReloadIs(env: P.Env, c: P.Central)
    ensures var r := P.Restore(env, c.store.sessions.FindAll(), Lru([], map[], c.sessions.clock));
      var (c', reply) := P.Step(env, c, P.ReloadSessions);
      && c'.store == P.Accessed(c.store)
      && (env.fails(c.store.accesses) ==> reply == P.Failed(P.KeystoreError) && c'.sessions == c.sessions)
      && (!env.fails(c.store.accesses) ==>
            if r.Ok? then reply == P.Done && c'.sessions == r.value
            else reply == P.Failed(r.error) && c'.sessions == c.sessions)
  {
    hide P.Restore, Rows.FindAll;
  }

  lemma {:induction false} StartIsReload(env: P.Env, ks: P.Keystore, c: P.Central)
    requires c.store == ks && c.sessions.clock == 0
    ensures var (c', reply) := P.Step(env, c, P.ReloadSessions);
      match P.Fresh(env, ks)
      case Ok(started) => reply == P.Done && started.sessions == c'.sessions && started.store == c'.store
      case Err(e) => reply == P.Failed(e)
  {
    hide P.Restore;
  }

  // ----- conversations -----

  function LoadGroup(mls: C.Mls): (C.Id, C.Raw) -> Option<C.Conversation>
  {
    (id, raw) => if mls.parse(raw).None? then None else Some(C.Conversation(id, mls.parse(raw).value))
  }

  lemma {:induction false} GroupsRefill(env: C.Env, rows: seq<(C.Id, C.Raw)>, cache: Lru<C.Id, C.Conversation>)
    ensures C.Restored(env, rows, cache) ==
      var r := Refill(env.limiter, LoadGroup(env.mls), rows, cache);
      if r.None? then Err(C.MlsError) else Ok(r.value)
    decreases |rows|
  {
    hide Lru.TryInsert;
    if rows != [] && env.mls.parse(rows[0].1).Some? {
      var conv := C.Conversation(rows[0].0, env.mls.parse(rows[0].1).value);
      var inserted := cache.TryInsert(env.limiter, rows[0].0, conv);
      if inserted.Some? {
        GroupsRefill(env, rows[1..], inserted.value);
      }
    }
  }

  /**
   A restore from disk reads the groups in the order of the listing. It takes the first `n` into memory,
   active or not, up to one that finds no room; a group that cannot be read fails it exactly when it is
   reached, and then, as when the table cannot be read, the conversations in memory stay.
   */
  lemma {:induction false} RestoredGroups(env: C.Env, c: C.Central, pkiRestored: bool, io: C.Io) returns (n: nat)
    requires env.Lawful() && NoDup(Firsts(env.listing(c.store.groups.FindAll())))
    ensures var rows := env.listing(c.store.groups.FindAll());
      var spoilt := exists i: nat :: Spoilt(env.limiter, LoadGroup(env.mls), rows, c.cache.clock, i);
      var (c', reply) := C.Step(env, c, C.RestoreFromDisk(pkiRestored, io));
      && c'.store == c.store
      && (!io.readable ==> reply == C.Failed(C.KeystoreError) && c' == c)
      && (io.readable && spoilt ==> reply == C.Failed(C.MlsError) && c' == c)
      && (io.readable && !spoilt ==>
            && reply == (if pkiRestored then C.Done else C.Failed(C.PkiError))
            && Taken(env.limiter, LoadGroup(env.mls), rows, 0, c.cache.clock, n)
            && (n < |rows| ==> !Room(env.limiter, n, c.cache.clock + n))
            && Holds(c'.cache, LoadGroup(env.mls), rows, [], n))
  {
    var rows := env.listing(c.store.groups.FindAll());
    var empty: Lru<C.Id, C.Conversation> := Lru([], map[], c.cache.clock);
    n := RefillResult(env.limiter, LoadGroup(env.mls), rows, c.cache.clock);
    GroupsRefill(env, rows, empty);
    hide C.Restored, Refill, Rows.FindAll, Spoilt, Holds, Taken, LoadGroup, Room;
  }
}

/**
 The cached sessions behave like the keystore alone: in every run whose keystore accesses succeed,
 whatever is evicted and whenever, each call answers what it would answer without a cache.
 */
module ProteusRefinement {
  import opened Wrappers
  import opened Sequences
  import opened Tables
  import opened Machines
  import opened GroupStores
  import opened ProteusSpec

  /** A cached session is what reading its row would give. */
  ghost predicate Backed(env: Env, sessions: Table<Id, Bytes>, id: Id, conv: Conversation) {
    Fetch(env.ratchet, sessions, id) == Ok(Some(conv))
  }

  ghost predicate Coherent(env: Env, c: Central) {
    && c.sessions.Valid(env.limiter)
    && forall id :: id in c.sessions.entries ==> Backed(env, c.store.sessions, id, c.sessions.entries[id])
  }

  ghost predicate SameContents(a: Keystore, b: Keystore) {
    a.sessions == b.sessions && a.prekeys == b.prekeys
  }

  /** Every stored session can be read back. */
  ghost predicate Healthy(env: Env, sessions: Table<Id, Bytes>) {
    forall id :: id in sessions.rows ==> env.ratchet.deserialise(sessions.rows[id]).Some?
  }

  lemma {:induction false} AccessRefines(env: Env, c: Central, id: Id)
    requires env.Lawful() && env.AccessesSucceed() && Coherent(env, c)
    ensures var (c1, found) := Access(env, c, id);
      && Coherent(env, c1) && SameContents(c1.store, c.store)
      && found == Fetch(env.ratchet, c.store.sessions, id)
      && (found.Ok? && found.value.Some? ==> id in c1.sessions.entries && c1.sessions.entries[id] == found.value.value)
  {
    assert !env.fails(c.store.accesses);
    if id in c.sessions.entries {
      PromoteValid(env.limiter, c.sessions, id);
    } else {
      var found := Fetch(env.ratchet, c.store.sessions, id);
      if found.Ok? && found.value.Some? {
        InsertKeeps(env.limiter, c.sessions, id, found.value.value);
      }
    }
  }

  lemma {:induction false} CreateRefines(env: Env, c: Central, id: Id, session: Session, reply: Reply)
    requires env.Lawful() && env.AccessesSucceed() && Coherent(env, c)
    ensures var (c1, r) := Create(env, c, id, session, reply);
      Coherent(env, c1) && r == reply && SameContents(c1.store, Put(env, c.store, id, session))
  {
    hide Kept;
    var conv := Conversation(id, session);
    InsertKeeps(env.limiter, c.sessions, id, conv);
    var cache := c.sessions.Insert(env.limiter, id, conv);
    PromoteValid(env.limiter, cache, id);
    hide Lru.Insert;
    var c1 := Create(env, c, id, session, reply).0;
    assert c1.sessions == cache.Promote(id);
    assert !env.fails(c.store.accesses) && c1.store.sessions == Put(env, c.store, id, session).sessions;
    forall x | x in c1.sessions.entries ensures Backed(env, c1.store.sessions, x, c1.sessions.entries[x]) {
      if x != id {
        assert c1.sessions.entries[x] == c.sessions.entries[x];
      }
    }
  }

  lemma {:induction false} AdvanceRefines(env: Env, c: Central, conv: Conversation, moved: (Session, Option<Bytes>))
    requires env.Lawful() && env.AccessesSucceed() && Coherent(env, c)
    requires conv.identifier in c.sessions.entries && c.sessions.entries[conv.identifier] == conv
    requires moved.1 == None ==> moved.0 == conv.session
    ensures var (c1, r) := Advance(env, c, conv.identifier, conv, moved);
      && Coherent(env, c1)
      && match moved.1
         case None => r == Failed(ProteusError) && SameContents(c1.store, c.store)
         case Some(text) => r == Text(text) && SameContents(c1.store, Put(env, c.store, conv.identifier, moved.0))
  {
  }

  lemma {:induction false} EncryptRefines(env: Env, c: Central, id: Id, plaintext: Bytes, coins: Coins)
    requires env.Lawful() && env.AccessesSucceed() && Coherent(env, c)
    ensures var ((c1, r), (ks, q)) :=
        (EncryptOne(env, c, id, plaintext, coins), RefEncrypt(env, c.store, id, plaintext, coins));
      Coherent(env, c1) && r == q && SameContents(c1.store, ks)
  {
    AccessRefines(env, c, id);
    var (c1, found) := Access(env, c, id);
    if found.Ok? && found.value.Some? {
      var conv := found.value.value;
      AdvanceRefines(env, c1, conv, env.ratchet.encrypt(conv.session, plaintext, coins));
    }
  }

  lemma {:induction false} DecryptRefines(env: Env, c: Central, id: Id, ciphertext: Bytes, coins: Coins)
    requires env.Lawful() && env.AccessesSucceed() && Coherent(env, c)
    ensures var ((c1, r), (ks, q)) :=
        (DecryptOne(env, c, id, ciphertext, coins), RefStep(env, c.store, Decrypt(id, ciphertext, coins)));
      Coherent(env, c1) && r == q && SameContents(c1.store, ks)
  {
    AccessRefines(env, c, id);
    var (c1, found) := Access(env, c, id);
    if found.Ok? && found.value.Some? {
      var conv := found.value.value;
      var (session, prekeys, text) := env.ratchet.decrypt(conv.session, c1.store.prekeys, ciphertext, coins);
      AdvanceRefines(env, c1.(store := c1.store.(prekeys := prekeys)), conv, (session, text));
    }
  }

  lemma {:induction false} EncryptAllRefines(
      env: Env, c: Central, items: seq<(Id, Coins)>, plaintext: Bytes, ks: Keystore, acc: map<Id, Bytes>)
    requires env.Lawful() && env.AccessesSucceed() && Coherent(env, c) && SameContents(c.store, ks)
    ensures var ((c1, r), (ks1, q)) :=
        (EncryptAll(env, c, items, plaintext, acc), RefEncryptAll(env, ks, items, plaintext, acc));
      Coherent(env, c1) && r == q && SameContents(c1.store, ks1)
    decreases |items|
  {
    if items != [] {
      var id := items[0].0;
      var (c1, found) := Access(env, c, id);
      AccessRefines(env, c, id);
      EncryptRefines(env, c, id, plaintext, items[0].1);
      var (ks1, q) := RefEncrypt(env, ks, id, plaintext, items[0].1);
      assert RefEncrypt(env, c.store, id, plaintext, items[0].1).1 == q;
      match found
      case Err(e) =>
      case Ok(None) => EncryptAllRefines(env, c1, items[1..], plaintext, ks, acc);
      case Ok(Some(conv)) =>
        var (c2, r) := Advance(env, c1, id, conv, env.ratchet.encrypt(conv.session, plaintext, items[0].1));
        assert EncryptOne(env, c, id, plaintext, items[0].1) == (c2, r);
        if r.Text? {
          EncryptAllRefines(env, c2, items[1..], plaintext, ks1, acc[id := r.text]);
        }
    }
  }

  lemma {:induction false} RestoreRefines(
      env: Env, sessions: Table<Id, Bytes>, rows: seq<(Id, Bytes)>, cache: Lru<Id, Conversation>)
    requires cache.Valid(env.limiter)
    requires forall id :: id in cache.entries ==> Backed(env, sessions, id, cache.entries[id])
    requires forall row :: row in rows ==> row.0 in sessions.rows && sessions.rows[row.0] == row.1
    ensures var r := Restore(env, rows, cache);
      match r
      case Ok(cache') => cache'.Valid(env.limiter)
        && forall id :: id in cache'.entries ==> Backed(env, sessions, id, cache'.entries[id])
      case Err(e) => e == ProteusError && !Healthy(env, sessions)
    decreases |rows|
  {
    if rows != [] {
      assert rows[0] in rows;
      var raw := env.ratchet.deserialise(rows[0].1);
      if raw.Some? {
        var conv := Conversation(rows[0].0, raw.value);
        TryInsertValid(env.limiter, cache, rows[0].0, conv);
        var t := cache.TryInsert(env.limiter, rows[0].0, conv);
        if t.Some? {
          RestoreRefines(env, sessions, rows[1..], t.value);
        }
      }
    }
  }

  /** A reload never changes what is stored; it can fail only on a session that cannot be read back. */
  lemma {:induction false} ReloadRefines(env: Env, c: Central)
    requires env.Lawful() && env.AccessesSucceed() && Coherent(env, c)
    ensures var (c1, r) := Reload(env, c);
      && Coherent(env, c1) && SameContents(c1.store, c.store)
      && (r == Done || (r == Failed(ProteusError) && !Healthy(env, c.store.sessions)))
  {
    var empty: Lru<Id, Conversation> := Lru([], map[], c.sessions.clock);
    assert !env.fails(c.store.accesses);
    RestoreRefines(env, c.store.sessions, c.store.sessions.FindAll(), empty);
  }

  lemma {:induction false} DeleteRefines(env: Env, c: Central, id: Id)
    requires env.Lawful() && env.AccessesSucceed() && Coherent(env, c)
    ensures var (c1, r) := Step(env, c, SessionDelete(id));
      && Coherent(env, c1) && r == Done
      && c1.store.sessions == c.store.sessions.Delete(id) && c1.store.prekeys == c.store.prekeys
  {
    assert !env.fails(c.store.accesses);
    if id in c.store.sessions.rows {
      RemoveValid(env.limiter, c.sessions, id);
      var (cache, sessions) := (c.sessions.Remove(id), c.store.sessions.Delete(id));
      forall x | x in cache.entries ensures Backed(env, sessions, x, cache.entries[x]) {
        assert Backed(env, c.store.sessions, x, c.sessions.entries[x]);
      }
    } else {
      assert id !in c.store.sessions.order by { assert id !in Elements(c.store.sessions.order); }
      assert c.store.sessions.Delete(id) == c.store.sessions;
    }
  }

  ghost predicate StepAgrees(env: Env, c: Central, ks: Keystore, call: Call) {
    var ((c1, r), (ks1, q)) := (Step(env, c, call), RefStep(env, ks, call));
    && Coherent(env, c1) && SameContents(c1.store, ks1)
    && (r == q || (call.ReloadSessions? && !Healthy(env, ks.sessions) && r == Failed(ProteusError)))
  }

  lemma {:induction false} CreationRefines(env: Env, c: Central, ks: Keystore, call: Call)
    requires env.Lawful() && env.AccessesSucceed() && Coherent(env, c) && SameContents(c.store, ks)
    requires call.SessionFromPrekey? || call.SessionFromMessage?
    ensures StepAgrees(env, c, ks, call)
  {
    if call.SessionFromPrekey? {
      var session := env.ratchet.fromPrekey(call.prekey, call.coins);
      if session.Some? {
        CreateRefines(env, c, call.id, session.value, Created(session.value));
      }
    } else {
      var (prekeys, init) := env.ratchet.fromMessage(c.store.prekeys, call.envelope, call.coins);
      if init.Some? {
        var reply := CreatedWith(init.value.0, init.value.1);
        CreateRefines(env, c.(store := c.store.(prekeys := prekeys)), call.id, init.value.0, reply);
      }
    }
  }

  lemma {:induction false} LookupRefines(env: Env, c: Central, ks: Keystore, call: Call)
    requires env.Lawful() && env.AccessesSucceed() && Coherent(env, c) && SameContents(c.store, ks)
    requires call.SessionSave? || call.GetSession? || call.SessionExists?
    ensures StepAgrees(env, c, ks, call)
  {
    AccessRefines(env, c, call.id);
    var (c1, found) := Access(env, c, call.id);
    if call.SessionSave? && found.Ok? && found.value.Some? {
      var c2 := Step(env, c, call).0;
      assert c2.store.sessions == Put(env, ks, call.id, found.value.value.session).sessions;
      forall x | x in c2.sessions.entries ensures Backed(env, c2.store.sessions, x, c2.sessions.entries[x]) {
        assert Backed(env, c1.store.sessions, x, c1.sessions.entries[x]);
      }
    }
  }

  /** One call keeps every cached session equal to its stored one, and answers as without a cache. */
  lemma {:induction false} StepRefines(env: Env, c: Central, ks: Keystore, call: Call)
    requires env.Lawful() && env.AccessesSucceed() && Coherent(env, c) && SameContents(c.store, ks)
    ensures StepAgrees(env, c, ks, call)
  {
    hide EncryptOne, DecryptOne, EncryptAll, RefEncryptAll, Reload, Coherent, Healthy, Rows.Delete;
    match call
    case SessionFromPrekey(_, _, _) => CreationRefines(env, c, ks, call);
    case SessionFromMessage(_, _, _) => CreationRefines(env, c, ks, call);
    case SessionSave(_) => LookupRefines(env, c, ks, call);
    case SessionDelete(id) => DeleteRefines(env, c, id);
    case GetSession(_) => LookupRefines(env, c, ks, call);
    case SessionExists(_) => LookupRefines(env, c, ks, call);
    case Encrypt(id, plaintext, coins) =>
      EncryptRefines(env, c, id, plaintext, coins);
    case Decrypt(id, ciphertext, coins) =>
      DecryptRefines(env, c, id, ciphertext, coins);
    case EncryptBatched(items, plaintext) =>
      EncryptAllRefines(env, c, items, plaintext, ks, map[]);
    case ReloadSessions => ReloadRefines(env, c);
  }

  lemma {:induction false} EncryptAllStaysHealthy(
      env: Env, ks: Keystore, items: seq<(Id, Coins)>, plaintext: Bytes, acc: map<Id, Bytes>)
    requires env.Lawful() && Healthy(env, ks.sessions)
    ensures Healthy(env, RefEncryptAll(env, ks, items, plaintext, acc).0.sessions)
    decreases |items|
  {
    if items != [] {
      var (ks1, reply) := RefEncrypt(env, ks, items[0].0, plaintext, items[0].1);
      var acc' := if reply.Text? then acc[items[0].0 := reply.text] else acc;
      EncryptAllStaysHealthy(env, ks1, items[1..], plaintext, acc');
    }
  }

  lemma {:induction false} StaysHealthy(env: Env, ks: Keystore, call: Call)
    requires env.Lawful() && Healthy(env, ks.sessions)
    ensures Healthy(env, RefStep(env, ks, call).0.sessions)
  {
    if call.EncryptBatched? {
      EncryptAllStaysHealthy(env, ks, call.items, call.plaintext, map[]);
    }
  }

  ghost predicate Mirrors(env: Env, c: Central, ks: Keystore) {
    Coherent(env, c) && SameContents(c.store, ks)
  }

  ghost function Mirroring(env: Env): (Central, Keystore) -> bool {
    (c, ks) => Mirrors(env, c, ks)
  }

  ghost function MirroringHealthy(env: Env): (Central, Keystore) -> bool {
    (c, ks) => Mirrors(env, c, ks) && Healthy(env, ks.sessions)
  }

  function IsReload(): Call -> bool {
    (call: Call) => call.ReloadSessions?
  }

  function NoCall(): Call -> bool {
    call => false
  }

  lemma {:induction false} MachineFollows(env: Env)
    requires env.Lawful() && env.AccessesSucceed()
    ensures Follows(Machine(env), RefMachine(env), Mirroring(env), IsReload())
    ensures Follows(Machine(env), RefMachine(env), MirroringHealthy(env), NoCall())
    ensures forall ks :: RefMachine(env)(ks, ReloadSessions).0 == ks
  {
    forall ks: Keystore ensures RefMachine(env)(ks, ReloadSessions).0 == ks {
      assert RefStep(env, ks, ReloadSessions) == (ks, Done);
    }
    hide Step, RefStep;
    forall c: Central, ks: Keystore, call: Call | Mirrors(env, c, ks)
      ensures Mirrors(env, Machine(env)(c, call).0, RefMachine(env)(ks, call).0)
      ensures call.ReloadSessions? || Machine(env)(c, call).1 == RefMachine(env)(ks, call).1
      ensures Healthy(env, ks.sessions) ==> Healthy(env, RefMachine(env)(ks, call).0.sessions)
      ensures Healthy(env, ks.sessions) ==> Machine(env)(c, call).1 == RefMachine(env)(ks, call).1
    {
      StepRefines(env, c, ks, call);
      if Healthy(env, ks.sessions) {
        StaysHealthy(env, ks, call);
      }
    }
  }

  /**
   The refinement. Every call answers as it would without a cache; only a reload may report a
   stored session that cannot be read back, and none does when there is no such session.
   */
  lemma {:induction false} RunRefines(env: Env, c: Central, ks: Keystore, calls: seq<Call>)
    requires env.Lawful() && env.AccessesSucceed() && Mirrors(env, c, ks)
    ensures Mirrors(env, Run(Machine(env), c, calls).0, Run(RefMachine(env), ks, calls).0)
    ensures forall i :: 0 <= i < |calls| && (Healthy(env, ks.sessions) || !calls[i].ReloadSessions?) ==>
      Run(Machine(env), c, calls).1[i] == Run(RefMachine(env), ks, calls).1[i]
  {
    MachineFollows(env);
    RunFollows(Machine(env), RefMachine(env), Mirroring(env), IsReload(), c, ks, calls);
    if Healthy(env, ks.sessions) {
      RunFollows(Machine(env), RefMachine(env), MirroringHealthy(env), NoCall(), c, ks, calls);
    }
  }

  /** Every run starts with what has just been restored. */
  lemma {:induction false} FreshIsCoherent(env: Env, ks: Keystore)
    requires Fresh(env, ks).Ok?
    ensures Coherent(env, Fresh(env, ks).value) && SameContents(Fresh(env, ks).value.store, ks)
  {
    RestoreRefines(env, ks.sessions, ks.sessions.FindAll(), Lru([], map[], 0));
  }

  /** The refinement from the start: whatever the keystore holds when the central is created. */
  lemma {:induction false} RunFromStartRefines(env: Env, ks: Keystore, calls: seq<Call>)
    requires env.Lawful() && env.AccessesSucceed() && Fresh(env, ks).Ok?
    ensures Mirrors(env, Run(Machine(env), Fresh(env, ks).value, calls).0, Run(RefMachine(env), ks, calls).0)
    ensures forall i :: 0 <= i < |calls| && (Healthy(env, ks.sessions) || !calls[i].ReloadSessions?) ==>
      Run(Machine(env), Fresh(env, ks).value, calls).1[i] == Run(RefMachine(env), ks, calls).1[i]
  {
    FreshIsCoherent(env, ks);
    RunRefines(env, Fresh(env, ks).value, ks, calls);
  }

  // ----- restarts -----

  /** A reload in the middle of a run changes nothing in the keystore, now or later. */
  lemma {:induction false} RestartKeepsKeystore(env: Env, c: Central, a: seq<Call>, b: seq<Call>)
    requires env.Lawful() && env.AccessesSucceed() && Coherent(env, c)
    ensures SameContents(Run(Machine(env), c, a + b).0.store, Run(Machine(env), c, a + [ReloadSessions] + b).0.store)
  {
    hide Step, RefStep;
    MachineFollows(env);
    IgnoredCallEnd(Machine(env), RefMachine(env), Mirroring(env), IsReload(), c, c.store, a, ReloadSessions, b);
  }

  /**
   Nor does it change any later answer, other than what a later reload says of a stored session
   that cannot be read back.
   */
  lemma {:induction false} RestartIsInvisible(env: Env, c: Central, a: seq<Call>, b: seq<Call>, i: nat)
    requires env.Lawful() && env.AccessesSucceed() && Coherent(env, c)
    requires i < |b| && (Healthy(env, c.store.sessions) || !b[i].ReloadSessions?)
    ensures Run(Machine(env), c, a + [ReloadSessions] + b).1[|a| + 1 + i] == Run(Machine(env), c, a + b).1[|a| + i]
  {
    hide Step, RefStep;
    MachineFollows(env);
    if Healthy(env, c.store.sessions) {
      IgnoredCall(Machine(env), RefMachine(env), MirroringHealthy(env), NoCall(), c, c.store, a, ReloadSessions, b, i);
    } else {
      IgnoredCall(Machine(env), RefMachine(env), Mirroring(env), IsReload(), c, c.store, a, ReloadSessions, b, i);
    }
  }

  lemma {:induction false} ReverseHead<T>(s: seq<T>, t: seq<T>)
    requires s != []
    ensures Reverse(s) + t == Reverse(s[1..]) + ([s[0]] + t)
  {
  }

  lemma {:induction false} ReverseStep<T>(all: seq<T>, room: nat, order: seq<T>)
    requires all != [] && room > 0
    ensures Reverse(Cut(all, room)) + order == Reverse(Cut(all[1..], room - 1)) + ([all[0]] + order)
  {
    assert Cut(all, room)[1..] == Cut(all[1..], room - 1);
    ReverseHead(Cut(all, room), order);
  }

  /** The rows of `ids`, none of them cached yet and all of them readable. */
  ghost predicate Restorable(env: Env, ids: seq<Id>, rows: seq<(Id, Bytes)>, cached: set<Id>) {
    && NoDup(ids) && |ids| == |rows|
    && forall i :: 0 <= i < |ids| ==>
         rows[i].0 == ids[i] && ids[i] !in cached && env.ratchet.deserialise(rows[i].1).Some?
  }

  lemma {:induction false} RestorableRest(env: Env, ids: seq<Id>, rows: seq<(Id, Bytes)>, cached: set<Id>)
    requires ids != [] && Restorable(env, ids, rows, cached)
    ensures Restorable(env, ids[1..], rows[1..], cached + {ids[0]})
  {
    forall i | 0 <= i < |ids[1..]|
      ensures rows[1..][i].0 == ids[1..][i] && ids[1..][i] != ids[0]
    {
      assert ids[1..][i] == ids[i + 1];
    }
  }

  /** With room for it, the first row is restored in front. */
  lemma {:induction false} RestoreFirst(
      env: Env, rows: seq<(Id, Bytes)>, cache: Lru<Id, Conversation>) returns (cache': Lru<Id, Conversation>)
    requires env.limiter.LengthOnly() && cache.Valid(env.limiter) && |cache.order| < env.limiter.len
    requires rows != [] && rows[0].0 !in cache.entries && env.ratchet.deserialise(rows[0].1).Some?
    ensures cache'.Valid(env.limiter) && cache'.order == [rows[0].0] + cache.order
    ensures cache'.entries.Keys == cache.entries.Keys + {rows[0].0}
    ensures Restore(env, rows, cache) == Restore(env, rows[1..], cache')
  {
    var conv := Conversation(rows[0].0, env.ratchet.deserialise(rows[0].1).value);
    assert env.limiter.mem(cache.clock) == MemoryPressure({}, false);
    TryInsertValid(env.limiter, cache, rows[0].0, conv);
    cache' := cache.TryInsert(env.limiter, rows[0].0, conv).value;
  }

  /** Nothing to restore, or no room. */
  lemma {:induction false} RestoreEnds(env: Env, ids: seq<Id>, rows: seq<(Id, Bytes)>, cache: Lru<Id, Conversation>)
    requires env.limiter.LengthOnly() && cache.Valid(env.limiter)
    requires Restorable(env, ids, rows, cache.entries.Keys) && (rows == [] || |cache.order| == env.limiter.len)
    ensures Restore(env, rows, cache) == Ok(cache)
    ensures Reverse(Cut(ids, env.limiter.len - |cache.order|)) + cache.order == cache.order
  {
    assert Cut(ids, env.limiter.len - |cache.order|) == [];
    assert Reverse<Id>([]) + cache.order == cache.order;
  }

  lemma {:induction false} RestorableFirst(env: Env, ids: seq<Id>, rows: seq<(Id, Bytes)>, cached: set<Id>)
    requires Restorable(env, ids, rows, cached)
    ensures |ids| == |rows|
    ensures rows != [] ==> rows[0].0 == ids[0] && ids[0] !in cached && env.ratchet.deserialise(rows[0].1).Some?
  {
  }

  lemma {:induction false} RestoreIsPrefix(env: Env, ids: seq<Id>, rows: seq<(Id, Bytes)>, cache: Lru<Id, Conversation>)
    requires env.limiter.LengthOnly() && cache.Valid(env.limiter) && |cache.order| <= env.limiter.len
    requires Restorable(env, ids, rows, cache.entries.Keys)
    ensures Restore(env, rows, cache).Ok?
    ensures Restore(env, rows, cache).value.order
         == Reverse(Cut(ids, env.limiter.len - |cache.order|)) + cache.order
    decreases |rows|
  {
    hide *;
    var room := env.limiter.len - |cache.order|;
    RestorableFirst(env, ids, rows, cache.entries.Keys);
    if rows == [] || room == 0 {
      RestoreEnds(env, ids, rows, cache);
    } else {
      var cache' := RestoreFirst(env, rows, cache);
      RestorableRest(env, ids, rows, cache.entries.Keys);
      RestoreIsPrefix(env, ids[1..], rows[1..], cache');
      ReverseStep(ids, room, cache.order);
    }
  }

  /**
   What a restart brings back into memory: with the length limit alone, the first stored sessions,
   as many as there is room for.
   */
  lemma {:induction false} RestoredSessions(env: Env, c: Central)
    requires env.limiter.LengthOnly() && Healthy(env, c.store.sessions) && !env.fails(c.store.accesses)
    ensures Reload(env, c).1 == Done
    ensures Reload(env, c).0.sessions.order == Reverse(Cut(c.store.sessions.order, env.limiter.len))
  {
    var empty: Lru<Id, Conversation> := Lru([], map[], c.sessions.clock);
    RestoreIsPrefix(env, c.store.sessions.order, c.store.sessions.FindAll(), empty);
  }
}

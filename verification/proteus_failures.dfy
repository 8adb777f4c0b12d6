/**
 Runs in which accesses to the keystore may fail: what is stored, and when a session in memory can differ
 from its stored self.
 */
module ProteusFailures {
  import opened Wrappers
  import opened Sequences
  import opened Tables
  import opened GroupStores
  import opened Machines
  import opened ProteusSpec
  import opened ProteusRefinement

  // ----- every stored session was once in memory -----

  /** A row is as it was at the start, or it was written from a state that session has been in. */
  ghost predicate WasInMemory(env: Env, start: Table<Id, Bytes>, c: Central, id: Id)
    requires id in c.store.sessions.rows
  {
    || (id in start.rows && start.rows[id] == c.store.sessions.rows[id])
    || (exists session :: (id, session) in c.seen && c.store.sessions.rows[id] == env.ratchet.serialise(session))
  }

  ghost predicate Remembered(env: Env, start: Table<Id, Bytes>, c: Central) {
    && c.sessions.Valid(env.limiter)
    && (forall id :: id in c.sessions.entries ==>
         c.sessions.entries[id].identifier == id && (id, c.sessions.entries[id].session) in c.seen)
    && (forall id :: id in c.store.sessions.rows ==> WasInMemory(env, start, c, id))
  }

  lemma {:induction false} SeenGrows(env: Env, start: Table<Id, Bytes>, c: Central, c': Central, id: Id)
    requires id in c.store.sessions.rows && WasInMemory(env, start, c, id) && c.seen <= c'.seen
    requires id in c'.store.sessions.rows && c'.store.sessions.rows[id] == c.store.sessions.rows[id]
    ensures WasInMemory(env, start, c', id)
  {
  }

  lemma {:induction false} AccessRemembers(env: Env, start: Table<Id, Bytes>, c: Central, id: Id)
    requires env.limiter.len > 0 && Remembered(env, start, c)
    ensures var (c1, found) := Access(env, c, id);
      && Remembered(env, start, c1) && SameContents(c1.store, c.store)
      && (found.Ok? && found.value.Some? ==> id in c1.sessions.entries && c1.sessions.entries[id] == found.value.value)
  {
    var (c1, found) := Access(env, c, id);
    if id in c.sessions.entries {
      PromoteValid(env.limiter, c.sessions, id);
    } else if found.Ok? && found.value.Some? {
      InsertKeeps(env.limiter, c.sessions, id, found.value.value);
    }
    forall x | x in c1.store.sessions.rows ensures WasInMemory(env, start, c1, x) {
      SeenGrows(env, start, c, c1, x);
    }
  }

  lemma {:induction false} SaveRemembers(env: Env, start: Table<Id, Bytes>, c: Central, conv: Conversation)
    requires Remembered(env, start, c) && (conv.identifier, conv.session) in c.seen
    ensures Remembered(env, start, c.(store := Save(env, c.store, conv).0))
  {
    var c1 := c.(store := Save(env, c.store, conv).0);
    forall x | x in c1.store.sessions.rows ensures WasInMemory(env, start, c1, x) {
      if x in c.store.sessions.rows && c1.store.sessions.rows[x] == c.store.sessions.rows[x] {
        SeenGrows(env, start, c, c1, x);
      }
    }
  }

  /** What is in memory may change to any state that is recorded as seen. */
  lemma {:induction false} MemoryRemembers(env: Env, start: Table<Id, Bytes>, c: Central, c': Central)
    requires Remembered(env, start, c) && c'.store.sessions == c.store.sessions && c.seen <= c'.seen
    requires c'.sessions.Valid(env.limiter)
    requires forall id :: id in c'.sessions.entries ==>
      c'.sessions.entries[id].identifier == id && (id, c'.sessions.entries[id].session) in c'.seen
    ensures Remembered(env, start, c')
  {
    forall x | x in c'.store.sessions.rows ensures WasInMemory(env, start, c', x) {
      SeenGrows(env, start, c, c', x);
    }
  }

  lemma {:induction false} CreateRemembers(
      env: Env, start: Table<Id, Bytes>, c: Central, id: Id, session: Session, reply: Reply)
    requires env.limiter.len > 0 && Remembered(env, start, c)
    ensures Remembered(env, start, Create(env, c, id, session, reply).0)
  {
    var conv := Conversation(id, session);
    var cache := c.sessions.Insert(env.limiter, id, conv);
    InsertKeeps(env.limiter, c.sessions, id, conv);
    PromoteValid(env.limiter, cache, id);
    var c1 := Central(cache.Promote(id), c.store, c.seen + {(id, session)});
    MemoryRemembers(env, start, c, c1);
    SaveRemembers(env, start, c1, conv);
  }

  lemma {:induction false} AdvanceRemembers(
      env: Env, start: Table<Id, Bytes>, c: Central, id: Id, conv: Conversation, moved: (Session, Option<Bytes>))
    requires Remembered(env, start, c) && id in c.sessions.entries && c.sessions.entries[id] == conv
    ensures Remembered(env, start, Advance(env, c, id, conv, moved).0)
  {
    var conv' := conv.(session := moved.0);
    var c1 := c.(sessions := c.sessions.Write(id, conv'), seen := c.seen + {(id, moved.0)});
    MemoryRemembers(env, start, c, c1);
    SaveRemembers(env, start, c1, conv');
  }

  lemma {:induction false} EncryptAllRemembers(
      env: Env, start: Table<Id, Bytes>, c: Central, items: seq<(Id, Coins)>, plaintext: Bytes, acc: map<Id, Bytes>)
    requires env.limiter.len > 0 && Remembered(env, start, c)
    ensures Remembered(env, start, EncryptAll(env, c, items, plaintext, acc).0)
    decreases |items|
  {
    if items != [] {
      var id := items[0].0;
      AccessRemembers(env, start, c, id);
      var (c1, found) := Access(env, c, id);
      if found.Ok? && found.value.None? {
        EncryptAllRemembers(env, start, c1, items[1..], plaintext, acc);
      } else if found.Ok? {
        var conv := found.value.value;
        var moved := env.ratchet.encrypt(conv.session, plaintext, items[0].1);
        AdvanceRemembers(env, start, c1, id, conv, moved);
        var (c2, reply) := Advance(env, c1, id, conv, moved);
        if reply.Text? {
          EncryptAllRemembers(env, start, c2, items[1..], plaintext, acc[conv.identifier := reply.text]);
        }
      }
    }
  }

  lemma {:induction false} RestoreIdentifies(env: Env, rows: seq<(Id, Bytes)>, cache: Lru<Id, Conversation>)
    requires cache.Valid(env.limiter)
    requires forall id :: id in cache.entries ==> cache.entries[id].identifier == id
    ensures var r := Restore(env, rows, cache);
      r.Ok? ==>
        && r.value.Valid(env.limiter)
        && (forall id :: id in r.value.entries ==> r.value.entries[id].identifier == id)
    decreases |rows|
  {
    if rows != [] && env.ratchet.deserialise(rows[0].1).Some? {
      var conv := Conversation(rows[0].0, env.ratchet.deserialise(rows[0].1).value);
      TryInsertValid(env.limiter, cache, rows[0].0, conv);
      var t := cache.TryInsert(env.limiter, rows[0].0, conv);
      if t.Some? {
        RestoreIdentifies(env, rows[1..], t.value);
      }
    }
  }

  lemma {:induction false} StepRemembers(env: Env, start: Table<Id, Bytes>, c: Central, call: Call)
    requires env.limiter.len > 0 && Remembered(env, start, c)
    ensures Remembered(env, start, Step(env, c, call).0)
  {
    hide Access, Create, Advance, Save, Restore, EncryptAll;
    match call
    case SessionFromPrekey(id, prekey, coins) =>
      var session := env.ratchet.fromPrekey(prekey, coins);
      if session.Some? {
        CreateRemembers(env, start, c, id, session.value, Created(session.value));
      }
    case SessionFromMessage(id, envelope, coins) =>
      var (prekeys, init) := env.ratchet.fromMessage(c.store.prekeys, envelope, coins);
      var c1 := c.(store := c.store.(prekeys := prekeys));
      MemoryRemembers(env, start, c, c1);
      if init.Some? {
        CreateRemembers(env, start, c1, id, init.value.0, CreatedWith(init.value.0, init.value.1));
      }
    case SessionSave(id) =>
      AccessRemembers(env, start, c, id);
      var (c1, found) := Access(env, c, id);
      if found.Ok? && found.value.Some? {
        SaveRemembers(env, start, c1, found.value.value);
      }
    case SessionDelete(id) =>
      RemoveValid(env.limiter, c.sessions, id);
      var c1 := Step(env, c, call).0;
      forall x | x in c1.store.sessions.rows ensures WasInMemory(env, start, c1, x) {
        SeenGrows(env, start, c, c1, x);
      }
    case GetSession(id) => AccessRemembers(env, start, c, id);
    case SessionExists(id) => AccessRemembers(env, start, c, id);
    case Encrypt(id, plaintext, coins) =>
      AccessRemembers(env, start, c, id);
      var (c1, found) := Access(env, c, id);
      if found.Ok? && found.value.Some? {
        var conv := found.value.value;
        AdvanceRemembers(env, start, c1, id, conv, env.ratchet.encrypt(conv.session, plaintext, coins));
      }
    case Decrypt(id, ciphertext, coins) =>
      AccessRemembers(env, start, c, id);
      var (c1, found) := Access(env, c, id);
      if found.Ok? && found.value.Some? {
        var conv := found.value.value;
        var (session, prekeys, text) := env.ratchet.decrypt(conv.session, c1.store.prekeys, ciphertext, coins);
        var c2 := c1.(store := c1.store.(prekeys := prekeys));
        MemoryRemembers(env, start, c1, c2);
        AdvanceRemembers(env, start, c2, id, conv, (session, text));
      }
    case EncryptBatched(items, plaintext) => EncryptAllRemembers(env, start, c, items, plaintext, map[]);
    case ReloadSessions =>
      var empty: Lru<Id, Conversation> := Lru([], map[], c.sessions.clock);
      RestoreIdentifies(env, c.store.sessions.FindAll(), empty);
      MemoryRemembers(env, start, c, Reload(env, c).0);
  }

  /**
   Whatever accesses fail: at the end of every run each stored session is the one stored at the
   start, or was written from a state that the session in memory has been in.
   */
  lemma {:induction false} StoredSessionsWereInMemory(env: Env, c: Central, calls: seq<Call>)
    requires env.limiter.len > 0 && Remembered(env, c.store.sessions, c)
    ensures var c' := Run(Machine(env), c, calls).0;
      forall id :: id in c'.store.sessions.rows ==> WasInMemory(env, c.store.sessions, c', id)
  {
    hide Step;
    var start := c.store.sessions;
    forall d: Central, call: Call | Remembered(env, start, d) ensures Remembered(env, start, Machine(env)(d, call).0) {
      StepRemembers(env, start, d, call);
    }
    RunKeeps(Machine(env), d => Remembered(env, start, d), c, calls);
  }

  /** A freshly created central remembers what it restored. */
  lemma {:induction false} FreshRemembers(env: Env, ks: Keystore)
    requires Fresh(env, ks).Ok?
    ensures Remembered(env, ks.sessions, Fresh(env, ks).value)
  {
    hide Restore;
    RestoreIdentifies(env, ks.sessions.FindAll(), Lru([], map[], 0));
  }

  /** So it is from the creation of the central on, whatever the keystore holds then. */
  lemma {:induction false} StoredSessionsWereInMemoryFromStart(env: Env, ks: Keystore, calls: seq<Call>)
    requires env.limiter.len > 0 && Fresh(env, ks).Ok?
    ensures var c' := Run(Machine(env), Fresh(env, ks).value, calls).0;
      forall id :: id in c'.store.sessions.rows ==> WasInMemory(env, ks.sessions, c', id)
  {
    FreshRemembers(env, ks);
    assert Fresh(env, ks).value.store.sessions == ks.sessions;
    hide Fresh, Step, Remembered, WasInMemory;
    StoredSessionsWereInMemory(env, Fresh(env, ks).value, calls);
  }

  // ----- when memory and keystore can differ -----

  /** The sessions a call may move on or write. A deletion does neither. */
  function Mutated(call: Call): (r: set<Id>)
  {
    match call
    case SessionFromPrekey(id, _, _) => {id}
    case SessionFromMessage(id, _, _) => {id}
    case SessionSave(id) => {id}
    case Encrypt(id, _, _) => {id}
    case Decrypt(id, _, _) => {id}
    case EncryptBatched(items, _) => Batched(items)
    case _ => {}
  }

  function Batched(items: seq<(Id, Coins)>): (r: set<Id>)
  {
    set item | item in items :: item.0
  }

  /** The sessions whose last mutating call ended in a failed access, after one more call. */
  function Unsettled(before: set<Id>, call: Call, reply: Reply): (r: set<Id>)
  {
    if reply == Failed(KeystoreError) then before + Mutated(call)
    else if reply.Failed? then before
    else if call.ReloadSessions? then {}
    else before - Mutated(call)
  }

  function TrackedMachine(env: Env): ((Central, set<Id>), Call) -> ((Central, set<Id>), Reply)
  {
    (s: (Central, set<Id>), call) =>
      var (c, reply) := Step(env, s.0, call);
      ((c, Unsettled(s.1, call, reply)), reply)
  }

  ghost predicate Settled(env: Env, c: Central, unsettled: set<Id>) {
    && c.sessions.Valid(env.limiter)
    && (forall id :: id in c.sessions.entries ==> c.sessions.entries[id].identifier == id)
    && (forall id :: id in c.sessions.entries && id !in unsettled ==>
         Backed(env, c.store.sessions, id, c.sessions.entries[id]))
  }

  lemma {:induction false} AccessSettles(env: Env, c: Central, unsettled: set<Id>, id: Id)
    requires env.limiter.len > 0 && Settled(env, c, unsettled)
    ensures var (c1, found) := Access(env, c, id);
      && Settled(env, c1, unsettled) && SameContents(c1.store, c.store)
      && (if found.Ok? && found.value.Some?
          then id in c1.sessions.entries && c1.sessions.entries[id] == found.value.value
          else id !in c1.sessions.entries)
  {
    var (c1, found) := Access(env, c, id);
    if id in c.sessions.entries {
      PromoteValid(env.limiter, c.sessions, id);
    } else if found.Ok? && found.value.Some? {
      InsertKeeps(env.limiter, c.sessions, id, found.value.value);
    }
  }

  /** A session in memory that is being written is settled by success, and only then. */
  lemma {:induction false} SaveSettles(env: Env, c: Central, unsettled: set<Id>, id: Id, conv: Conversation)
    requires env.ratchet.Lawful() && Settled(env, c, unsettled + {id})
    requires conv.identifier == id && (id in c.sessions.entries ==> c.sessions.entries[id] == conv)
    ensures var (store, ok) := Save(env, c.store, conv);
      Settled(env, c.(store := store), if ok then unsettled - {id} else unsettled + {id})
  {
  }

  lemma {:induction false} AdvanceSettles(
      env: Env, c: Central, unsettled: set<Id>, id: Id, conv: Conversation, moved: (Session, Option<Bytes>))
    requires env.ratchet.Lawful() && Settled(env, c, unsettled)
    requires id in c.sessions.entries && c.sessions.entries[id] == conv
    requires moved.1 == None ==> moved.0 == conv.session
    ensures var (c1, r) := Advance(env, c, id, conv, moved);
      match r
      case Text(_) => Settled(env, c1, unsettled - {id})
      case Failed(e) => Settled(env, c1, if e == KeystoreError then unsettled + {id} else unsettled)
      case _ => false
  {
    var conv' := conv.(session := moved.0);
    var c1 := c.(sessions := c.sessions.Write(id, conv'), seen := c.seen + {(id, moved.0)});
    if moved.1.Some? {
      SaveSettles(env, c1, unsettled, id, conv');
    } else {
      assert c1.sessions == c.sessions;
    }
  }

  lemma {:induction false} EncryptAllSettles(
      env: Env, c: Central, unsettled: set<Id>, items: seq<(Id, Coins)>, plaintext: Bytes, acc: map<Id, Bytes>)
    requires env.Lawful() && Settled(env, c, unsettled)
    ensures var (c1, r) := EncryptAll(env, c, items, plaintext, acc);
      match r
      case Texts(_) => Settled(env, c1, unsettled - Batched(items))
      case Failed(e) => Settled(env, c1, if e == KeystoreError then unsettled + Batched(items) else unsettled)
      case _ => false
    decreases |items|
  {
    hide Access, Advance;
    if items != [] {
      var (id, rest) := (items[0].0, items[1..]);
      assert items == [items[0]] + rest;
      assert Batched(items) == {id} + Batched(rest);
      var (c1, found) := Access(env, c, id);
      AccessSettles(env, c, unsettled, id);
      if found.Ok? && found.value.None? {
        EncryptAllSettles(env, c1, unsettled - {id}, rest, plaintext, acc);
      } else if found.Ok? {
        var conv := found.value.value;
        var moved := env.ratchet.encrypt(conv.session, plaintext, items[0].1);
        AdvanceSettles(env, c1, unsettled, id, conv, moved);
        var (c2, reply) := Advance(env, c1, id, conv, moved);
        if reply.Text? {
          EncryptAllSettles(env, c2, unsettled - {id}, rest, plaintext, acc[conv.identifier := reply.text]);
        }
      } else {
        FetchError(env, c, id);
      }
    }
  }

  /** Looking a session up fails on its bytes or for want of the keystore; then it was not in memory. */
  lemma {:induction false} FetchError(env: Env, c: Central, id: Id)
    ensures Access(env, c, id).1.Err? ==>
      Access(env, c, id).1.error in {ProteusError, KeystoreError} && id !in c.sessions.entries
  {
  }

  lemma {:induction false} CreateSettles(
      env: Env, c: Central, unsettled: set<Id>, id: Id, session: Session, reply: Reply)
    requires env.Lawful() && Settled(env, c, unsettled) && !reply.Failed?
    ensures var (c1, r) := Create(env, c, id, session, reply);
      && r in {reply, Failed(KeystoreError)}
      && Settled(env, c1, if r == reply then unsettled - {id} else unsettled + {id})
  {
    var conv := Conversation(id, session);
    var cache := c.sessions.Insert(env.limiter, id, conv);
    InsertKeeps(env.limiter, c.sessions, id, conv);
    PromoteValid(env.limiter, cache, id);
    SaveSettles(env, Central(cache.Promote(id), c.store, c.seen + {(id, session)}), unsettled, id, conv);
  }

  ghost predicate StepSettled(env: Env, c: Central, unsettled: set<Id>, call: Call) {
    var (c1, reply) := Step(env, c, call);
    Settled(env, c1, Unsettled(unsettled, call, reply))
  }

  lemma {:induction false} CreationSettles(env: Env, c: Central, unsettled: set<Id>, call: Call)
    requires env.Lawful() && Settled(env, c, unsettled)
    requires call.SessionFromPrekey? || call.SessionFromMessage?
    ensures StepSettled(env, c, unsettled, call)
  {
    hide Create;
    if call.SessionFromPrekey? {
      var session := env.ratchet.fromPrekey(call.prekey, call.coins);
      if session.Some? {
        CreateSettles(env, c, unsettled, call.id, session.value, Created(session.value));
      }
    } else {
      var (prekeys, init) := env.ratchet.fromMessage(c.store.prekeys, call.envelope, call.coins);
      if init.Some? {
        var reply := CreatedWith(init.value.0, init.value.1);
        CreateSettles(env, c.(store := c.store.(prekeys := prekeys)), unsettled, call.id, init.value.0, reply);
      }
    }
  }

  lemma {:induction false} LookupSettles(env: Env, c: Central, unsettled: set<Id>, call: Call)
    requires env.Lawful() && Settled(env, c, unsettled)
    requires call.SessionSave? || call.GetSession? || call.SessionExists? || call.Encrypt? || call.Decrypt?
    ensures StepSettled(env, c, unsettled, call)
  {
    hide Access, Advance, Save;
    var id := call.id;
    AccessSettles(env, c, unsettled, id);
    FetchError(env, c, id);
    var (c1, found) := Access(env, c, id);
    if found.Ok? && found.value.Some? {
      var conv := found.value.value;
      match call
      case SessionSave(_) =>
        SaveSettles(env, c1, unsettled, id, conv);
      case Encrypt(_, plaintext, coins) =>
        AdvanceSettles(env, c1, unsettled, id, conv, env.ratchet.encrypt(conv.session, plaintext, coins));
      case Decrypt(_, ciphertext, coins) =>
        var (session, prekeys, text) := env.ratchet.decrypt(conv.session, c1.store.prekeys, ciphertext, coins);
        AdvanceSettles(env, c1.(store := c1.store.(prekeys := prekeys)), unsettled, id, conv, (session, text));
      case _ =>
    }
  }

  lemma {:induction false} BatchSettles(env: Env, c: Central, unsettled: set<Id>, call: Call)
    requires env.Lawful() && Settled(env, c, unsettled) && call.EncryptBatched?
    ensures StepSettled(env, c, unsettled, call)
  {
    hide EncryptAll, Settled;
    EncryptAllSettles(env, c, unsettled, call.items, call.plaintext, map[]);
  }

  lemma {:induction false} ReloadSettles(env: Env, c: Central, unsettled: set<Id>)
    requires env.Lawful() && Settled(env, c, unsettled)
    ensures StepSettled(env, c, unsettled, ReloadSessions)
  {
    hide Restore;
    var empty: Lru<Id, Conversation> := Lru([], map[], c.sessions.clock);
    RestoreRefines(env, c.store.sessions, c.store.sessions.FindAll(), empty);
    RestoreIdentifies(env, c.store.sessions.FindAll(), empty);
  }

  lemma {:induction false} DeleteSettles(env: Env, c: Central, unsettled: set<Id>, id: Id)
    requires env.Lawful() && Settled(env, c, unsettled)
    ensures StepSettled(env, c, unsettled, SessionDelete(id))
  {
    RemoveValid(env.limiter, c.sessions, id);
  }

  lemma {:induction false} StepSettles(env: Env, c: Central, unsettled: set<Id>, call: Call)
    requires env.Lawful() && Settled(env, c, unsettled)
    ensures StepSettled(env, c, unsettled, call)
  {
    hide Step, StepSettled, Settled;
    match call
    case SessionFromPrekey(_, _, _) => CreationSettles(env, c, unsettled, call);
    case SessionFromMessage(_, _, _) => CreationSettles(env, c, unsettled, call);
    case EncryptBatched(_, _) => BatchSettles(env, c, unsettled, call);
    case ReloadSessions => ReloadSettles(env, c, unsettled);
    case SessionDelete(id) => DeleteSettles(env, c, unsettled, id);
    case _ => LookupSettles(env, c, unsettled, call);
  }

  /**
   Whatever accesses fail: at the end of every run a session in memory equals its stored self,
   unless the last call that could change it ended in a failed access.
   */
  lemma {:induction false} SettledSessionsAreStored(env: Env, c: Central, calls: seq<Call>)
    requires env.Lawful() && Coherent(env, c)
    ensures var (c', unsettled) := Run(TrackedMachine(env), (c, {}), calls).0;
      forall id :: id in c'.sessions.entries && id !in unsettled ==>
        Backed(env, c'.store.sessions, id, c'.sessions.entries[id])
  {
    hide Step;
    forall s: (Central, set<Id>), call: Call | Settled(env, s.0, s.1)
      ensures Settled(env, TrackedMachine(env)(s, call).0.0, TrackedMachine(env)(s, call).0.1)
    {
      StepSettles(env, s.0, s.1, call);
    }
    RunKeeps(TrackedMachine(env), (s: (Central, set<Id>)) => Settled(env, s.0, s.1), (c, {}), calls);
  }

  /** And so it is from the creation of the central on. */
  lemma {:induction false} SettledSessionsAreStoredFromStart(env: Env, ks: Keystore, calls: seq<Call>)
    requires env.Lawful() && Fresh(env, ks).Ok?
    ensures var (c', unsettled) := Run(TrackedMachine(env), (Fresh(env, ks).value, {}), calls).0;
      forall id :: id in c'.sessions.entries && id !in unsettled ==>
        Backed(env, c'.store.sessions, id, c'.sessions.entries[id])
  {
    hide Fresh, Step, Coherent, Backed;
    FreshIsCoherent(env, ks);
    SettledSessionsAreStored(env, Fresh(env, ks).value, calls);
  }

  // ----- deletion -----

  /** There is a session to find: in memory, or stored and readable. */
  predicate Known(env: Env, c: Central, id: Id) {
    || id in c.sessions.entries
    || (id in c.store.sessions.rows && env.ratchet.deserialise(c.store.sessions.rows[id]).Some?)
  }

  /** Asking whether a session exists tells just that, when the keystore can be read or need not be. */
  lemma {:induction false} ExistsTellsKnown(env: Env, c: Central, id: Id)
    ensures !env.fails(c.store.accesses) || id in c.sessions.entries ==>
      Step(env, c, SessionExists(id)).1 == Exists(Known(env, c, id))
  {
  }

  /** The keystore was read, or did not have to be, and there is no such session. */
  predicate NoSuchSession(env: Env, c: Central, id: Id) {
    id !in c.sessions.entries && !env.fails(c.store.accesses) && id !in c.store.sessions.rows
  }

  /**
   Encrypting and decrypting answer that there is no such session exactly when there is none; a save is
   then done without a write, and a batch goes on with the other sessions.
   */
  lemma {:induction false} UnknownSession(
      env: Env, c: Central, id: Id, text: Bytes, coins: Coins, items: seq<(Id, Coins)>)
    ensures Step(env, c, Encrypt(id, text, coins)).1 == Failed(ConversationNotFound(id)) <==> NoSuchSession(env, c, id)
    ensures Step(env, c, Decrypt(id, text, coins)).1 == Failed(ConversationNotFound(id)) <==> NoSuchSession(env, c, id)
    ensures NoSuchSession(env, c, id) ==>
      var c1 := c.(store := Accessed(c.store));
      && Step(env, c, SessionSave(id)) == (c1, Done)
      && Step(env, c, GetSession(id)) == (c1, Found(None))
      && Step(env, c, EncryptBatched([(id, coins)] + items, text)) == Step(env, c1, EncryptBatched(items, text))
  {
    var all := [(id, coins)] + items;
    assert all[1..] == items;
    hide Save, Lru.Insert, Lru.Promote, Lru.Write;
  }

  /**
   `session_delete` always answers that it is done. The session is gone exactly when its row was
   there and removing it worked, or when there was no session to find in the first place; asking for
   it afterwards tells which, if the keystore can be read.
   */
  lemma {:induction false} DeletionIsEffective(env: Env, c: Central, id: Id)
    requires env.Lawful() && c.sessions.Valid(env.limiter)
    ensures var (c1, r) := Step(env, c, SessionDelete(id));
      && r == Done
      && (!Known(env, c1, id) <==>
            || (id in c.store.sessions.rows && !env.fails(c.store.accesses))
            || !Known(env, c, id))
      && (!env.fails(c1.store.accesses) || id in c1.sessions.entries ==>
            Step(env, c1, SessionExists(id)).1 == Exists(Known(env, c1, id)))
  {
    RemoveValid(env.limiter, c.sessions, id);
    ExistsTellsKnown(env, Step(env, c, SessionDelete(id)).0, id);
  }

  /**
   So deletion cannot count as a call that settles a session: a session whose first write failed
   survives it, in memory and not in the keystore.
   */
  lemma {:induction false} UnsavedSessionSurvivesDeletion(env: Env, c: Central, id: Id, prekey: Bytes, coins: Coins)
    requires env.Lawful() && Coherent(env, c) && id !in c.store.sessions.rows
    requires env.fails(c.store.accesses) && env.ratchet.fromPrekey(prekey, coins).Some?
    ensures var calls := [SessionFromPrekey(id, prekey, coins), SessionDelete(id), SessionExists(id)];
      var (c', replies) := Run(Machine(env), c, calls);
      && replies == [Failed(KeystoreError), Done, Exists(true)]
      && id in c'.sessions.entries && id !in c'.store.sessions.rows
  {
    var calls := [SessionFromPrekey(id, prekey, coins), SessionDelete(id), SessionExists(id)];
    var conv := Conversation(id, env.ratchet.fromPrekey(prekey, coins).value);
    InsertKeeps(env.limiter, c.sessions, id, conv);
    var c1 := Step(env, c, calls[0]).0;
    assert id in c1.sessions.entries && c1.store.sessions == c.store.sessions;
    var c2 := Step(env, c1, calls[1]).0;
    assert c2.sessions == c1.sessions;
    RunThree(Machine(env), c, calls[0], calls[1], calls[2]);
  }
}

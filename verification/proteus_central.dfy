/**
 The Proteus client itself (crypto/src/proteus.rs): an object whose methods update its session
 store, write through shared handles and save to the keystore. Each method is proved to do what
 `ProteusSpec.Step` says of the matching call.
 */
module ProteusCentrals {
  import opened Wrappers
  import opened Sequences
  import opened Tables
  import opened GroupStores
  import opened ProteusSpec
  import opened ProteusIdentity

  const ITEM_LIMIT: nat := 100
  /** How many sessions a restored store may hold. */
  const SESSION_LIMIT: nat := ITEM_LIMIT * 2

  class CryptoKeystore {
    /** Which of the accesses fail. */
    const fails: nat -> bool
    var sessions: Table<Id, Bytes>
    var prekeys: PreKeys
    var identity: Option<Bytes>
    var accesses: nat

    constructor (sessions: Table<Id, Bytes>, prekeys: PreKeys, identity: Option<Bytes>, fails: nat -> bool)
      ensures View() == Keystore(sessions, prekeys, identity, 0) && this.fails == fails
    {
      this.sessions, this.prekeys, this.identity, this.fails, accesses := sessions, prekeys, identity, fails, 0;
    }

    function View(): (v: Keystore)
      reads this
    {
      Keystore(sessions, prekeys, identity, accesses)
    }

    /** One more access, which works or not. */
    method Reach() returns (ok: bool)
      modifies this`accesses
      ensures ok == !fails(old(accesses)) && View() == Accessed(old(View()))
    {
      ok := !fails(accesses);
      accesses := accesses + 1;
    }

    method Save(id: Id, raw: Bytes) returns (ok: bool)
      modifies this
      ensures ok == !fails(old(accesses))
      ensures View() == if ok then Accessed(old(View())).(sessions := old(sessions).Upsert(id, raw))
                        else Accessed(old(View()))
    {
      ok := Reach();
      if ok {
        sessions := sessions.Upsert(id, raw);
      }
    }

    method Remove(id: Id) returns (ok: bool)
      modifies this
      ensures ok == (id in old(sessions).rows && !fails(old(accesses)))
      ensures View() == if ok then Accessed(old(View())).(sessions := old(sessions).Delete(id))
                        else Accessed(old(View()))
    {
      var reached := Reach();
      ok := reached && id in sessions.rows;
      if ok {
        sessions := sessions.Delete(id);
      }
    }
  }

  method LoadOrCreateIdentity(lib: Library, keystore: CryptoKeystore, created: Identity)
    returns (r: Result<Identity, Error>)
    modifies keystore
    ensures (keystore.View(), r) == LoadOrCreate(lib, keystore.fails, old(keystore.View()), created)
  {
    var read := keystore.Reach();
    if !read { return Err(KeystoreError); }
    if keystore.identity.Some? {
      var kp := lib.parse(keystore.identity.value);
      if kp.None? { return Err(ProteusError); }
      return Ok(kp.value);
    }
    var written := keystore.Reach();
    if !written { return Err(KeystoreError); }
    keystore.identity := Some(lib.raw(created));
    r := Ok(created);
  }

  type Handle = GroupStoreValue<Conversation>

  /** Takes rows into a new store, in order, until one finds no room. */
  method RestoreRows(rows: seq<(Id, Bytes)>, env: Env, clock: nat)
    returns (r: Result<GroupStore<Id, Conversation>, Error>)
    ensures match Restore(env, rows, Lru([], map[], clock))
            case Err(e) => r == Err(e)
            case Ok(cache) =>
              r.Ok? && RestoredAs(r.value, env.limiter, cache) && fresh(r.value) && fresh(r.value.Handles())
  {
    var store := new GroupStore<Id, Conversation>(env.limiter, clock);
    ghost var restored := Restore(env, rows, Lru([], map[], clock));
    var i := 0;
    while i < |rows|
      invariant 0 <= i <= |rows|
      invariant store.Valid() && store.limiter == env.limiter && fresh(store) && fresh(store.Handles())
      invariant Restore(env, rows[i..], store.View()) == restored
    {
      var (id, raw) := rows[i];
      var session := env.ratchet.deserialise(raw);
      if session.None? { return Err(ProteusError); }
      var inserted := store.TryInsert(id, Conversation(id, session.value));
      if inserted.Err? { break; }
      assert rows[i..][1..] == rows[i + 1..];
      i := i + 1;
    }
    r := Ok(store);
  }

  /** `restore_sessions` */
  method RestoreSessions(keystore: CryptoKeystore, env: Env, clock: nat)
    returns (r: Result<GroupStore<Id, Conversation>, Error>)
    requires env.fails == keystore.fails
    modifies keystore`accesses
    ensures keystore.View() == Accessed(old(keystore.View()))
    ensures match RestoreAll(env, old(keystore.View()), clock)
            case Err(e) => r == Err(e)
            case Ok(cache) =>
              r.Ok? && RestoredAs(r.value, env.limiter, cache) && fresh(r.value) && fresh(r.value.Handles())
  {
    hide Restore;
    var listed := keystore.Reach();
    if !listed { return Err(KeystoreError); }
    r := RestoreRows(keystore.sessions.FindAll(), env, clock);
  }

  ghost predicate RestoredAs(
    store: GroupStore<Id, Conversation>, limiter: HybridMemoryLimiter<Id>, cache: Lru<Id, Conversation>)
    reads store, store.Handles()
  {
    store.Valid() && store.limiter == limiter && store.View() == cache
  }

  class ProteusCentral {
    const ratchet: Ratchet
    const limiter: HybridMemoryLimiter<Id>
    var proteusSessions: GroupStore<Id, Conversation>
    ghost var seen: set<(Id, Session)>

    ghost predicate Valid()
      reads this, proteusSessions
    {
      proteusSessions.Valid() && proteusSessions.limiter == limiter && limiter.len > 0
    }

    ghost function Environment(keystore: CryptoKeystore): (env: Env)
    {
      Env(ratchet, limiter, keystore.fails)
    }

    ghost function Repr(): set<object>
      reads this, proteusSessions
    {
      {this, proteusSessions} + proteusSessions.Handles()
    }

    ghost function View(keystore: CryptoKeystore): (c: Central)
      reads this, Repr(), keystore
    {
      Central(proteusSessions.View(), keystore.View(), seen)
    }

    /** A central over sessions that have just been restored; see `TryNew`. */
    constructor (ratchet: Ratchet, sessions: GroupStore<Id, Conversation>, ghost seen: set<(Id, Session)>)
      requires sessions.Valid() && sessions.limiter.len > 0
      ensures Valid() && this.ratchet == ratchet && limiter == sessions.limiter
      ensures proteusSessions == sessions && this.seen == seen
    {
      this.ratchet, limiter, proteusSessions, this.seen := ratchet, sessions.limiter, sessions, seen;
    }

    /** `get_fetch` on the session store: the keystore is read on a miss only. */
    method Session(keystore: CryptoKeystore, id: Id) returns (r: Result<Option<Handle>, Error>)
      requires Valid()
      modifies this, proteusSessions, keystore`accesses
      ensures Valid() && proteusSessions == old(proteusSessions) && fresh(Repr() - old(Repr()))
      ensures View(keystore) == Access(Environment(keystore), old(View(keystore)), id).0
      ensures Answers(r, Access(Environment(keystore), old(View(keystore)), id).1)
      ensures r.Ok? && r.value.Some? ==>
        id in proteusSessions.lru.entries && proteusSessions.lru.entries[id] == r.value.value
    {
      hide Lru.GetFetch;
      ghost var (env, before) := (Environment(keystore), View(keystore));
      var sessions := keystore.sessions;
      var hit := proteusSessions.ContainsKey(id);
      var readable := true;
      if !hit {
        readable := keystore.Reach();
      }
      var fetch := x => if readable then Fetch(ratchet, sessions, x) else Err(KeystoreError);
      GetFetchReads(limiter, before.sessions, id, fetch, x => Read(env, before.store, x));
      r := proteusSessions.GetFetch(id, fetch);
      seen := Noted(seen, id, Access(env, before, id).1);
    }

    /** The handle found holds the conversation found. */
    ghost predicate Answers(r: Result<Option<Handle>, Error>, found: Result<Option<Conversation>, Error>)
      reads if r.Ok? && r.value.Some? then {r.value.value} else {}
    {
      match found
      case Err(e) => r == Err(e)
      case Ok(None) => r == Ok(None)
      case Ok(Some(conv)) => r.Ok? && r.value.Some? && r.value.value.value == conv
    }

    /** Locks the handle of the session cached under `id` and puts a new ratchet state in it. */
    method WriteThrough(keystore: CryptoKeystore, ghost id: Id, handle: Handle, session: Session)
      requires Valid()
      requires id in proteusSessions.lru.entries && proteusSessions.lru.entries[id] == handle
      modifies handle, this`seen
      ensures Valid() && handle.value == old(handle.value).(session := session)
      ensures View(keystore) == old(View(keystore)).(
                sessions := old(View(keystore)).sessions.Write(id, handle.value),
                seen := old(seen) + {(handle.value.identifier, session)})
    {
      handle.value := handle.value.(session := session);
      seen := seen + {(handle.value.identifier, session)};
      assert proteusSessions.View().entries == old(proteusSessions.View()).Write(id, handle.value).entries;
    }

    method SessionSaveByRef(keystore: CryptoKeystore, handle: Handle) returns (ok: bool)
      modifies keystore
      ensures (keystore.View(), ok) == Save(Environment(keystore), old(keystore.View()), handle.value)
    {
      ok := keystore.Save(handle.value.identifier, ratchet.serialise(handle.value.session));
    }

    /** What follows a session's own encryption or decryption: the new state is kept, then saved. */
    method Advanced(keystore: CryptoKeystore, ghost id: Id, handle: Handle, session: Session, text: Option<Bytes>)
      returns (r: Result<Bytes, Error>)
      requires Valid()
      requires id in proteusSessions.lru.entries && proteusSessions.lru.entries[id] == handle
      modifies handle, this`seen, keystore
      ensures Valid() && handle.value.identifier == old(handle.value.identifier)
      ensures (View(keystore), ReplyText(r))
           == Advance(Environment(keystore), old(View(keystore)), id, old(handle.value), (session, text))
    {
      hide Save, Lru.Write;
      WriteThrough(keystore, id, handle, session);
      if text.None? { return Err(ProteusError); }
      var ok := SessionSaveByRef(keystore, handle);
      r := if ok then Ok(text.value) else Err(KeystoreError);
    }

    static function ReplyText(r: Result<Bytes, Error>): (reply: Reply)
    {
      match r
      case Ok(text) => Text(text)
      case Err(e) => Failed(e)
    }

    method Encrypt(keystore: CryptoKeystore, id: Id, plaintext: Bytes, coins: Coins) returns (r: Result<Bytes, Error>)
      requires Valid()
      modifies Repr(), keystore
      ensures Valid() && proteusSessions == old(proteusSessions) && fresh(Repr() - old(Repr()))
      ensures (View(keystore), ReplyText(r))
           == EncryptOne(Environment(keystore), old(View(keystore)), id, plaintext, coins)
    {
      hide Access, Advance, View, GroupStore.View, Deref;
      var found := Session(keystore, id);
      if found.Err? { return Err(found.error); }
      if found.value.None? { return Err(ConversationNotFound(id)); }
      var handle := found.value.value;
      var (session, text) := ratchet.encrypt(handle.value.session, plaintext, coins);
      r := Advanced(keystore, id, handle, session, text);
    }

    /** The Proteus library has used prekeys up, or not. */
    method SetPrekeys(keystore: CryptoKeystore, prekeys: PreKeys)
      requires Valid()
      modifies keystore`prekeys
      ensures Valid()
      ensures View(keystore) == old(View(keystore)).(store := old(View(keystore)).store.(prekeys := prekeys))
    {
      keystore.prekeys := prekeys;
    }

    method Decrypt(keystore: CryptoKeystore, id: Id, ciphertext: Bytes, coins: Coins) returns (r: Result<Bytes, Error>)
      requires Valid()
      modifies Repr(), keystore
      ensures Valid() && proteusSessions == old(proteusSessions) && fresh(Repr() - old(Repr()))
      ensures (View(keystore), ReplyText(r))
           == DecryptOne(Environment(keystore), old(View(keystore)), id, ciphertext, coins)
    {
      hide Access, Advance, GroupStore.View, Deref;
      var found := Session(keystore, id);
      if found.Err? { return Err(found.error); }
      if found.value.None? { return Err(ConversationNotFound(id)); }
      var handle := found.value.value;
      var (session, prekeys, text) := ratchet.decrypt(handle.value.session, keystore.prekeys, ciphertext, coins);
      SetPrekeys(keystore, prekeys);
      r := Advanced(keystore, id, handle, session, text);
    }

    method EncryptBatched(keystore: CryptoKeystore, items: seq<(Id, Coins)>, plaintext: Bytes)
      returns (r: Result<map<Id, Bytes>, Error>)
      requires Valid()
      modifies Repr(), keystore
      ensures Valid() && proteusSessions == old(proteusSessions) && fresh(Repr() - old(Repr()))
      ensures (View(keystore), match r case Ok(texts) => Texts(texts) case Err(e) => Failed(e))
           == Step(Environment(keystore), old(View(keystore)), ProteusSpec.EncryptBatched(items, plaintext))
    {
      hide Access, Advance, View, GroupStore.View, Deref;
      ghost var env := Environment(keystore);
      ghost var whole := EncryptAll(env, View(keystore), items, plaintext, map[]);
      var acc: map<Id, Bytes> := map[];
      var i := 0;
      while i < |items|
        invariant 0 <= i <= |items|
        invariant Valid() && proteusSessions == old(proteusSessions) && fresh(Repr() - old(Repr()))
        invariant EncryptAll(env, View(keystore), items[i..], plaintext, acc) == whole
      {
        var (id, coins) := items[i];
        assert items[i..][0] == items[i] && items[i..][1..] == items[i + 1..];
        var found := Session(keystore, id);
        if found.Err? { return Err(found.error); }
        if found.value.Some? {
          var handle := found.value.value;
          var (session, text) := ratchet.encrypt(handle.value.session, plaintext, coins);
          var saved := Advanced(keystore, id, handle, session, text);
          if saved.Err? { return Err(saved.error); }
          acc := acc[handle.value.identifier := saved.value];
        }
        i := i + 1;
      }
      r := Ok(acc);
    }

    /** Puts a new session in memory, in place of any other of that id, and takes its handle. */
    method Inserted(keystore: CryptoKeystore, id: Id, session: Session) returns (handle: Handle)
      requires Valid()
      modifies this, proteusSessions
      ensures Valid() && proteusSessions == old(proteusSessions) && fresh(Repr() - old(Repr()))
      ensures handle.value == Conversation(id, session)
      ensures var c := old(View(keystore));
        var cache := c.sessions.Insert(limiter, id, Conversation(id, session));
        id in cache.entries && View(keystore) == Central(cache.Promote(id), c.store, c.seen + {(id, session)})
    {
      hide Lru.Insert, Lru.Promote, Kept;
      ghost var cache := proteusSessions.View().Insert(limiter, id, Conversation(id, session));
      InsertKeeps(limiter, proteusSessions.View(), id, Conversation(id, session));
      proteusSessions.Insert(id, Conversation(id, session));
      assert id in proteusSessions.View().entries;
      var inserted := proteusSessions.Get(id);
      handle := inserted.value;
      assert handle.value == proteusSessions.View().entries[id] == cache.entries[id];
      seen := seen + {(id, session)};
    }

    /** The new session goes into memory first, then to the keystore. */
    method Created(keystore: CryptoKeystore, id: Id, session: Session) returns (r: Result<Handle, Error>)
      requires Valid()
      modifies Repr(), keystore
      ensures Valid() && proteusSessions == old(proteusSessions) && fresh(Repr() - old(Repr()))
      ensures (View(keystore), if r.Ok? then Done else Failed(r.error))
           == Create(Environment(keystore), old(View(keystore)), id, session, Done)
      ensures r.Ok? ==> r.value.value == Conversation(id, session)
    {
      hide Lru.Insert, Lru.Promote, Save, Deref;
      var handle := Inserted(keystore, id, session);
      var ok := SessionSaveByRef(keystore, handle);
      r := if ok then Ok(handle) else Err(KeystoreError);
    }

    method SessionFromPrekey(keystore: CryptoKeystore, id: Id, prekey: Bytes, coins: Coins)
      returns (r: Result<Handle, Error>)
      requires Valid()
      modifies Repr(), keystore
      ensures Valid() && proteusSessions == old(proteusSessions) && fresh(Repr() - old(Repr()))
      ensures (View(keystore), if r.Ok? then ProteusSpec.Created(r.value.value.session) else Failed(r.error))
           == Step(Environment(keystore), old(View(keystore)), ProteusSpec.SessionFromPrekey(id, prekey, coins))
    {
      var session := ratchet.fromPrekey(prekey, coins);
      if session.None? { return Err(ProteusError); }
      r := Created(keystore, id, session.value);
    }

    method SessionFromMessage(keystore: CryptoKeystore, id: Id, envelope: Bytes, coins: Coins)
      returns (r: Result<(Handle, Bytes), Error>)
      requires Valid()
      modifies Repr(), keystore
      ensures Valid() && proteusSessions == old(proteusSessions) && fresh(Repr() - old(Repr()))
      ensures (View(keystore), if r.Ok? then CreatedWith(r.value.0.value.session, r.value.1) else Failed(r.error))
           == Step(Environment(keystore), old(View(keystore)), ProteusSpec.SessionFromMessage(id, envelope, coins))
    {
      var (prekeys, init) := ratchet.fromMessage(keystore.prekeys, envelope, coins);
      hide Create, Deref, GroupStore.View;
      SetPrekeys(keystore, prekeys);
      if init.None? { return Err(ProteusError); }
      var handle := Created(keystore, id, init.value.0);
      r := if handle.Ok? then Ok((handle.value, init.value.1)) else Err(handle.error);
    }

    method SessionSave(keystore: CryptoKeystore, id: Id) returns (r: Result<(), Error>)
      requires Valid()
      modifies Repr(), keystore
      ensures Valid() && proteusSessions == old(proteusSessions) && fresh(Repr() - old(Repr()))
      ensures (View(keystore), if r.Ok? then Done else Failed(r.error))
           == Step(Environment(keystore), old(View(keystore)), ProteusSpec.SessionSave(id))
    {
      hide Access, Save, Deref, GroupStore.View;
      var found := Session(keystore, id);
      if found.Err? { return Err(found.error); }
      if found.value.Some? {
        var ok := SessionSaveByRef(keystore, found.value.value);
        if !ok { return Err(KeystoreError); }
      }
      r := Ok(());
    }

    /** Drops the session from memory. */
    method Forget(keystore: CryptoKeystore, id: Id)
      requires Valid()
      modifies proteusSessions
      ensures Valid() && Repr() <= old(Repr())
      ensures View(keystore) == old(View(keystore)).(sessions := old(View(keystore)).sessions.Remove(id))
    {
      hide Lru.Remove, Deref;
      var _ := proteusSessions.Remove(id);
    }

    /** Answers that it is done whether or not the row could be removed. */
    method SessionDelete(keystore: CryptoKeystore, id: Id)
      requires Valid()
      modifies Repr(), keystore
      ensures Valid() && proteusSessions == old(proteusSessions) && fresh(Repr() - old(Repr()))
      ensures View(keystore) == Step(Environment(keystore), old(View(keystore)), ProteusSpec.SessionDelete(id)).0
    {
      hide Lru.Remove, Deref, GroupStore.View;
      var ok := keystore.Remove(id);
      if ok {
        Forget(keystore, id);
      }
    }

    method SessionExists(keystore: CryptoKeystore, id: Id) returns (known: bool)
      requires Valid()
      modifies Repr(), keystore
      ensures Valid() && proteusSessions == old(proteusSessions) && fresh(Repr() - old(Repr()))
      ensures (View(keystore), Exists(known))
           == Step(Environment(keystore), old(View(keystore)), ProteusSpec.SessionExists(id))
    {
      hide Access, View, GroupStore.View, Deref;
      var found := Session(keystore, id);
      known := found.Ok? && found.value.Some?;
    }

    /** Takes over sessions that were just restored. */
    method TakeOver(keystore: CryptoKeystore, sessions: GroupStore<Id, Conversation>)
      requires Valid() && RestoredAs(sessions, limiter, sessions.View())
      modifies this
      ensures Valid() && proteusSessions == sessions
      ensures View(keystore)
           == Central(sessions.View(), keystore.View(), old(seen) + Cached(sessions.View()))
    {
      proteusSessions := sessions;
      seen := seen + Cached(sessions.View());
    }

    method ReloadSessions(keystore: CryptoKeystore) returns (r: Result<(), Error>)
      requires Valid()
      modifies this, keystore
      ensures Valid() && fresh(Repr() - old(Repr()))
      ensures (View(keystore), if r.Ok? then Done else Failed(r.error))
           == Step(Environment(keystore), old(View(keystore)), ProteusSpec.ReloadSessions)
    {
      hide RestoreAll;
      ghost var before := View(keystore);
      var restored := RestoreSessions(keystore, Env(ratchet, limiter, keystore.fails), proteusSessions.lru.clock);
      assert View(keystore) == before.(store := keystore.View());
      hide Deref, GroupStore.View;
      if restored.Err? { return Err(restored.error); }
      TakeOver(keystore, restored.value);
      r := Ok(());
    }
  }

  /** `try_new`: the identity, then the sessions. */
  method TryNew(lib: Library, keystore: CryptoKeystore, created: Identity, mem: nat -> MemoryPressure<Id>)
    returns (r: Result<ProteusCentral, Error>)
    modifies keystore
    ensures var (ks, identity) := LoadOrCreate(lib, keystore.fails, old(keystore.View()), created);
      match identity
      case Err(e) => r == Err(e) && keystore.View() == ks
      case Ok(kp) =>
        var env := Env(lib.ratchet(kp), HybridMemoryLimiter(SESSION_LIMIT, mem), keystore.fails);
        && keystore.View() == Accessed(ks)
        && match Fresh(env, ks)
           case Err(e) => r == Err(e)
           case Ok(c) => r.Ok? && fresh(r.value.Repr()) && StartsAs(r.value, keystore, env, c)
  {
    hide LoadOrCreate, RestoreAll;
    var identity := LoadOrCreateIdentity(lib, keystore, created);
    if identity.Err? { return Err(identity.error); }
    var env := Env(lib.ratchet(identity.value), HybridMemoryLimiter(SESSION_LIMIT, mem), keystore.fails);
    var restored := RestoreSessions(keystore, env, 0);
    if restored.Err? { return Err(restored.error); }
    var central := new ProteusCentral(env.ratchet, restored.value, Cached(restored.value.View()));
    r := Ok(central);
  }

  ghost predicate StartsAs(central: ProteusCentral, keystore: CryptoKeystore, env: Env, c: Central)
    reads central, central.Repr(), keystore
  {
    central.Valid() && central.Environment(keystore) == env && central.View(keystore) == c
  }
}

/**
 Ratcheting sessions run through the store (crypto/src/proteus.rs), as a state machine on values:
 `Step` is what one `proteus_*` call does, with the cache, with any evictions and with keystore
 accesses that may fail. `RefStep` is the same call on the keystore alone.
 */
module ProteusSpec {
  import opened Wrappers
  import opened Sequences
  import opened Tables
  import opened GroupStores

  type Id(==, !new)
  type Bytes(==, !new)
  type Session(==, !new)
  type PreKeys(==, !new)
  /** The random draws of one call. */
  type Coins(==, !new)

  /** The Proteus library, with the local identity already supplied. */
  datatype Ratchet = Ratchet(
    serialise: Session -> Bytes,
    deserialise: Bytes -> Option<Session>,
    fromPrekey: (Bytes, Coins) -> Option<Session>,
    fromMessage: (PreKeys, Bytes, Coins) -> (PreKeys, Option<(Session, Bytes)>),
    encrypt: (Session, Bytes, Coins) -> (Session, Option<Bytes>),
    decrypt: (Session, PreKeys, Bytes, Coins) -> (Session, PreKeys, Option<Bytes>))
  {
    /** What is assumed of it: reading back what was written, and failures without a trace. */
    ghost predicate Lawful() {
      && (forall s :: deserialise(serialise(s)) == Some(s))
      && (forall s, text, coins :: encrypt(s, text, coins).1 == None ==> encrypt(s, text, coins).0 == s)
      && (forall s, keys, text, coins ::
            decrypt(s, keys, text, coins).2 == None ==> decrypt(s, keys, text, coins).0 == s)
    }
  }

  /** `fails(n)` says whether the `n`-th access to the keystore fails: a read, a listing or a write. */
  datatype Env = Env(ratchet: Ratchet, limiter: HybridMemoryLimiter<Id>, fails: nat -> bool) {
    ghost predicate Lawful() {
      ratchet.Lawful() && limiter.len > 0
    }

    ghost predicate AccessesSucceed() {
      forall n :: !fails(n)
    }
  }

  datatype Error = ConversationNotFound(id: Id) | ProteusError | KeystoreError

  datatype Conversation = Conversation(identifier: Id, session: Session)

  /** The keystore. `accesses` counts the attempts to read, list or write its rows. */
  datatype Keystore = Keystore(sessions: Table<Id, Bytes>, prekeys: PreKeys, identity: Option<Bytes>, accesses: nat)

  /** `seen` records every session state an in-memory session has been in. */
  datatype Central = Central(sessions: Lru<Id, Conversation>, store: Keystore, seen: set<(Id, Session)>)

  datatype Call =
    | SessionFromPrekey(id: Id, prekey: Bytes, coins: Coins)
    | SessionFromMessage(id: Id, envelope: Bytes, coins: Coins)
    | SessionSave(id: Id)
    | SessionDelete(id: Id)
    | GetSession(id: Id)
    | SessionExists(id: Id)
    | Encrypt(id: Id, plaintext: Bytes, coins: Coins)
    | Decrypt(id: Id, ciphertext: Bytes, coins: Coins)
    | EncryptBatched(items: seq<(Id, Coins)>, plaintext: Bytes)
    | ReloadSessions

  datatype Reply =
    | Done
    | Created(session: Session)
    | CreatedWith(session: Session, payload: Bytes)
    | Found(found: Option<Session>)
    | Exists(known: bool)
    | Text(text: Bytes)
    | Texts(texts: map<Id, Bytes>)
    | Failed(error: Error)

  // ----- the keystore -----

  function Accessed(ks: Keystore): (r: Keystore)
  {
    ks.(accesses := ks.accesses + 1)
  }

  function Save(env: Env, ks: Keystore, conv: Conversation): (r: (Keystore, bool))
  {
    if env.fails(ks.accesses) then (Accessed(ks), false)
    else
      var sessions := ks.sessions.Upsert(conv.identifier, env.ratchet.serialise(conv.session));
      (Accessed(ks).(sessions := sessions), true)
  }

  /** Removing a row that is not there is an error, like an access that fails. */
  function RemoveRow(env: Env, ks: Keystore, id: Id): (r: (Keystore, bool))
  {
    if env.fails(ks.accesses) || id !in ks.sessions.rows then (Accessed(ks), false)
    else (Accessed(ks).(sessions := ks.sessions.Delete(id)), true)
  }

  /** `fetch_from_id`. */
  function Fetch(ratchet: Ratchet, sessions: Table<Id, Bytes>, id: Id): (r: Result<Option<Conversation>, Error>)
  {
    match sessions.Find(id)
    case None => Ok(None)
    case Some(raw) =>
      match ratchet.deserialise(raw)
      case None => Err(ProteusError)
      case Some(session) => Ok(Some(Conversation(id, session)))
  }

  /** The same, when the access may fail. */
  function Read(env: Env, ks: Keystore, id: Id): (r: Result<Option<Conversation>, Error>)
  {
    if env.fails(ks.accesses) then Err(KeystoreError) else Fetch(env.ratchet, ks.sessions, id)
  }

  // ----- one call, with the cache -----

  /** What is found in memory, or read, has been in memory. */
  function Noted(seen: set<(Id, Session)>, id: Id, found: Result<Option<Conversation>, Error>): (r: set<(Id, Session)>)
  {
    if found.Ok? && found.value.Some? then seen + {(id, found.value.value.session)} else seen
  }

  /** `get_fetch`: the keystore is read on a miss only. */
  function Access(env: Env, c: Central, id: Id): (r: (Central, Result<Option<Conversation>, Error>))
  {
    var (cache, found) := c.sessions.GetFetch(env.limiter, id, x => Read(env, c.store, x));
    (Central(cache, if id in c.sessions.entries then c.store else Accessed(c.store), Noted(c.seen, id, found)), found)
  }

  /** A new session enters the store, replacing any other of that id, and is then persisted. */
  function Create(env: Env, c: Central, id: Id, session: Session, reply: Reply): (r: (Central, Reply))
  {
    var cache := c.sessions.Insert(env.limiter, id, Conversation(id, session));
    var cache := if id in cache.entries then cache.Promote(id) else cache;
    var (store, ok) := Save(env, c.store, Conversation(id, session));
    (Central(cache, store, c.seen + {(id, session)}), if ok then reply else Failed(KeystoreError))
  }

  /** The session under a handle moves on; unless that failed, it is then persisted. */
  function Advance(env: Env, c: Central, id: Id, conv: Conversation, moved: (Session, Option<Bytes>))
    : (r: (Central, Reply))
  {
    var conv' := conv.(session := moved.0);
    var c' := c.(sessions := c.sessions.Write(id, conv'), seen := c.seen + {(conv.identifier, moved.0)});
    match moved.1
    case None => (c', Failed(ProteusError))
    case Some(text) =>
      var (store, ok) := Save(env, c'.store, conv');
      (c'.(store := store), if ok then Text(text) else Failed(KeystoreError))
  }

  function EncryptOne(env: Env, c: Central, id: Id, plaintext: Bytes, coins: Coins): (r: (Central, Reply))
  {
    var (c1, found) := Access(env, c, id);
    match found
    case Err(e) => (c1, Failed(e))
    case Ok(None) => (c1, Failed(ConversationNotFound(id)))
    case Ok(Some(conv)) => Advance(env, c1, id, conv, env.ratchet.encrypt(conv.session, plaintext, coins))
  }

  function DecryptOne(env: Env, c: Central, id: Id, ciphertext: Bytes, coins: Coins): (r: (Central, Reply))
  {
    var (c1, found) := Access(env, c, id);
    match found
    case Err(e) => (c1, Failed(e))
    case Ok(None) => (c1, Failed(ConversationNotFound(id)))
    case Ok(Some(conv)) =>
      var (session, prekeys, text) := env.ratchet.decrypt(conv.session, c1.store.prekeys, ciphertext, coins);
      Advance(env, c1.(store := c1.store.(prekeys := prekeys)), id, conv, (session, text))
  }

  /** `encrypt_batched` from here on, with the ciphertexts so far. */
  function EncryptAll(env: Env, c: Central, items: seq<(Id, Coins)>, plaintext: Bytes, acc: map<Id, Bytes>)
    : (r: (Central, Reply))
    decreases |items|
  {
    if items == [] then (c, Texts(acc))
    else
      var (c1, found) := Access(env, c, items[0].0);
      match found
      case Err(e) => (c1, Failed(e))
      case Ok(None) => EncryptAll(env, c1, items[1..], plaintext, acc)
      case Ok(Some(conv)) =>
        var (c2, reply) := Advance(env, c1, items[0].0, conv, env.ratchet.encrypt(conv.session, plaintext, items[0].1));
        if reply.Text? then EncryptAll(env, c2, items[1..], plaintext, acc[conv.identifier := reply.text])
        else (c2, reply)
  }

  /** `restore_sessions` from the given rows on: stops at the first session that finds no room. */
  function Restore(env: Env, rows: seq<(Id, Bytes)>, cache: Lru<Id, Conversation>)
    : (r: Result<Lru<Id, Conversation>, Error>)
    decreases |rows|
  {
    if rows == [] then Ok(cache)
    else
      match env.ratchet.deserialise(rows[0].1)
      case None => Err(ProteusError)
      case Some(session) =>
        match cache.TryInsert(env.limiter, rows[0].0, Conversation(rows[0].0, session))
        case None => Ok(cache)
        case Some(cache') => Restore(env, rows[1..], cache')
  }

  function Cached(cache: Lru<Id, Conversation>): (seen: set<(Id, Session)>)
  {
    set id | id in cache.entries :: (id, cache.entries[id].session)
  }

  /** `restore_sessions`, listing included. */
  function RestoreAll(env: Env, ks: Keystore, clock: nat): (r: Result<Lru<Id, Conversation>, Error>)
  {
    if env.fails(ks.accesses) then Err(KeystoreError)
    else Restore(env, ks.sessions.FindAll(), Lru([], map[], clock))
  }

  /** `reload_sessions`: on an error the sessions in memory stay as they are. */
  function Reload(env: Env, c: Central): (r: (Central, Reply))
  {
    match RestoreAll(env, c.store, c.sessions.clock)
    case Err(e) => (c.(store := Accessed(c.store)), Failed(e))
    case Ok(cache) => (Central(cache, Accessed(c.store), c.seen + Cached(cache)), Done)
  }

  /** `try_new`, once the identity is known: a central that has just restored its sessions. */
  function Fresh(env: Env, ks: Keystore): (r: Result<Central, Error>)
  {
    match RestoreAll(env, ks, 0)
    case Err(e) => Err(e)
    case Ok(cache) => Ok(Central(cache, Accessed(ks), Cached(cache)))
  }

  function Step(env: Env, c: Central, call: Call): (r: (Central, Reply))
  {
    match call
    case SessionFromPrekey(id, prekey, coins) =>
      (match env.ratchet.fromPrekey(prekey, coins)
       case None => (c, Failed(ProteusError))
       case Some(session) => Create(env, c, id, session, Created(session)))
    case SessionFromMessage(id, envelope, coins) =>
      var (prekeys, init) := env.ratchet.fromMessage(c.store.prekeys, envelope, coins);
      var c1 := c.(store := c.store.(prekeys := prekeys));
      (match init
       case None => (c1, Failed(ProteusError))
       case Some((session, payload)) => Create(env, c1, id, session, CreatedWith(session, payload)))
    case SessionSave(id) =>
      var (c1, found) := Access(env, c, id);
      (match found
       case Err(e) => (c1, Failed(e))
       case Ok(None) => (c1, Done)
       case Ok(Some(conv)) =>
         var (store, ok) := Save(env, c1.store, conv);
         (c1.(store := store), if ok then Done else Failed(KeystoreError)))
    case SessionDelete(id) =>
      var (store, ok) := RemoveRow(env, c.store, id);
      (Central(if ok then c.sessions.Remove(id) else c.sessions, store, c.seen), Done)
    case GetSession(id) =>
      var (c1, found) := Access(env, c, id);
      (c1, match found
           case Err(e) => Failed(e)
           case Ok(None) => Found(None)
           case Ok(Some(conv)) => Found(Some(conv.session)))
    case SessionExists(id) =>
      var (c1, found) := Access(env, c, id);
      (c1, Exists(found.Ok? && found.value.Some?))
    case Encrypt(id, plaintext, coins) => EncryptOne(env, c, id, plaintext, coins)
    case Decrypt(id, ciphertext, coins) => DecryptOne(env, c, id, ciphertext, coins)
    case EncryptBatched(items, plaintext) => EncryptAll(env, c, items, plaintext, map[])
    case ReloadSessions => Reload(env, c)
  }

  function Machine(env: Env): (Central, Call) -> (Central, Reply)
  {
    (c, call) => Step(env, c, call)
  }

  // ----- one call, on the keystore alone -----

  function Put(env: Env, ks: Keystore, id: Id, session: Session): (r: Keystore)
  {
    ks.(sessions := ks.sessions.Upsert(id, env.ratchet.serialise(session)))
  }

  /** Reads the session, lets it move on, and writes it back. */
  function RefEncrypt(env: Env, ks: Keystore, id: Id, plaintext: Bytes, coins: Coins): (r: (Keystore, Reply))
  {
    match Fetch(env.ratchet, ks.sessions, id)
    case Err(e) => (ks, Failed(e))
    case Ok(None) => (ks, Failed(ConversationNotFound(id)))
    case Ok(Some(conv)) =>
      var (session, text) := env.ratchet.encrypt(conv.session, plaintext, coins);
      if text.None? then (ks, Failed(ProteusError)) else (Put(env, ks, id, session), Text(text.value))
  }

  /** Encrypts for each id in turn; an unknown id is skipped, any other failure ends the batch. */
  function RefEncryptAll(env: Env, ks: Keystore, items: seq<(Id, Coins)>, plaintext: Bytes, acc: map<Id, Bytes>)
    : (r: (Keystore, Reply))
    decreases |items|
  {
    if items == [] then (ks, Texts(acc))
    else
      var (ks1, reply) := RefEncrypt(env, ks, items[0].0, plaintext, items[0].1);
      if reply.Text? then RefEncryptAll(env, ks1, items[1..], plaintext, acc[items[0].0 := reply.text])
      else if reply == Failed(ConversationNotFound(items[0].0)) then RefEncryptAll(env, ks1, items[1..], plaintext, acc)
      else (ks1, reply)
  }

  function RefStep(env: Env, ks: Keystore, call: Call): (r: (Keystore, Reply))
  {
    match call
    case SessionFromPrekey(id, prekey, coins) =>
      (match env.ratchet.fromPrekey(prekey, coins)
       case None => (ks, Failed(ProteusError))
       case Some(session) => (Put(env, ks, id, session), Created(session)))
    case SessionFromMessage(id, envelope, coins) =>
      var (prekeys, init) := env.ratchet.fromMessage(ks.prekeys, envelope, coins);
      var ks1 := ks.(prekeys := prekeys);
      (match init
       case None => (ks1, Failed(ProteusError))
       case Some((session, payload)) => (Put(env, ks1, id, session), CreatedWith(session, payload)))
    case SessionSave(id) =>
      (match Fetch(env.ratchet, ks.sessions, id)
       case Err(e) => (ks, Failed(e))
       case Ok(None) => (ks, Done)
       case Ok(Some(conv)) => (Put(env, ks, id, conv.session), Done))
    case SessionDelete(id) => (ks.(sessions := ks.sessions.Delete(id)), Done)
    case GetSession(id) =>
      (ks, match Fetch(env.ratchet, ks.sessions, id)
           case Err(e) => Failed(e)
           case Ok(None) => Found(None)
           case Ok(Some(conv)) => Found(Some(conv.session)))
    case SessionExists(id) =>
      var found := Fetch(env.ratchet, ks.sessions, id);
      (ks, Exists(found.Ok? && found.value.Some?))
    case Encrypt(id, plaintext, coins) => RefEncrypt(env, ks, id, plaintext, coins)
    case Decrypt(id, ciphertext, coins) =>
      (match Fetch(env.ratchet, ks.sessions, id)
       case Err(e) => (ks, Failed(e))
       case Ok(None) => (ks, Failed(ConversationNotFound(id)))
       case Ok(Some(conv)) =>
         var (session, prekeys, text) := env.ratchet.decrypt(conv.session, ks.prekeys, ciphertext, coins);
         var ks1 := ks.(prekeys := prekeys);
         if text.None? then (ks1, Failed(ProteusError)) else (Put(env, ks1, id, session), Text(text.value)))
    case EncryptBatched(items, plaintext) => RefEncryptAll(env, ks, items, plaintext, map[])
    case ReloadSessions => (ks, Done)
  }

  function RefMachine(env: Env): (Keystore, Call) -> (Keystore, Reply)
  {
    (ks, call) => RefStep(env, ks, call)
  }
}

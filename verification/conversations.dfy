/**
 Conversations behind the session cache (crypto/src/mls/mod.rs, group_store.rs, restore.rs, wipe.rs,
 external_commit.rs, welcome.rs): groups are persisted when they are created or change, and fetched
 again when they are not in memory.
 */
module Conversations {
  import opened Wrappers
  import opened Sequences
  import opened Tables
  import opened GroupStores

  type Id(==, !new)
  type Raw(==, !new)
  type Group(==, !new)

  datatype Conversation = Conversation(id: Id, group: Group)

  /** Serialised groups, and which groups are active: this client is still a member. */
  datatype Mls = Mls(
    active: Group -> bool,
    parse: Raw -> Option<Group>,
    serialise: Group -> Raw,
    merge: Group -> Option<Group>
  )
  {
    ghost predicate Lawful() {
      && (forall group :: parse(serialise(group)) == Some(group))
      && (forall group :: merge(group).Some? ==> active(merge(group).value))
    }
  }

  /** `listing` is the order in which the rows come back from the hash map that `restore_groups` goes through. */
  datatype Env = Env(mls: Mls, limiter: HybridMemoryLimiter<Id>, listing: seq<(Id, Raw)> -> seq<(Id, Raw)>)
  {
    ghost predicate Lawful() {
      && mls.Lawful() && limiter.len > 0
      && forall rows, row :: row in listing(rows) <==> row in rows
    }
  }

  datatype Keystore = Keystore(groups: Table<Id, Raw>, pending: Table<Id, Raw>)

  datatype Central = Central(cache: Lru<Id, Conversation>, store: Keystore)

  datatype Error =
    | ConversationNotFound(id: Id) | ConversationAlreadyExists(id: Id) | MlsError | KeystoreError | PkiError

  /** Which database accesses of one call succeed: reading groups, reading pending groups, writing. */
  datatype Io = Io(readable: bool, pendingReadable: bool, writable: bool)

  /**
   How a merge ends once the group is persisted: its pending messages are restored, it is taken into
   memory, the pending group is deleted, and then the messages. Each step but the second may fail.
   */
  datatype MergeEnd = RestoreFails | DeleteFails | CleanupFails | Completes

  /**
   A new group is one its creator belongs to; `made` is what OpenMLS makes of the arguments, and
   `pkiRestored` says whether the PKI environment can be restored after the groups.
   */
  datatype Call =
    | NewConversation(id: Id, made: Option<Group>, io: Io)
    | ProcessWelcome(id: Id, made: Option<Group>, io: Io)
    | ConversationExists(id: Id, io: Io)
    | Change(id: Id, group: Group, io: Io)
    | WipeConversation(id: Id, io: Io)
    | JoinByExternalCommit(id: Id, group: Group, io: Io)
    | MergePendingGroup(id: Id, end: MergeEnd, io: Io)
    | ClearPendingGroup(id: Id, io: Io)
    | GetAllConversations(io: Io)
    | RestoreFromDisk(pkiRestored: bool, io: Io)

  datatype Reply = Done | Exists(known: bool) | All(conversations: seq<Conversation>) | Failed(error: Error)

  /** `fetch_from_id`: a group that is not active is as good as none. */
  function Fetch(mls: Mls, groups: Table<Id, Raw>, readable: bool, id: Id): (r: Result<Option<Conversation>, Error>)
  {
    if !readable then Err(KeystoreError)
    else if id !in groups.rows then Ok(None)
    else
      match mls.parse(groups.rows[id])
      case None => Err(MlsError)
      case Some(group) => Ok(if mls.active(group) then Some(Conversation(id, group)) else None)
  }

  /** `fetch_all`: the active groups of all rows; one that does not parse is the end of it. */
  function FetchAll(mls: Mls, rows: seq<(Id, Raw)>): (r: Option<seq<(Id, Conversation)>>)
  {
    if rows == [] then Some([])
    else
      match (mls.parse(rows[0].1), FetchAll(mls, rows[1..]))
      case (Some(group), Some(rest)) =>
        Some(if mls.active(group) then [(rows[0].0, Conversation(rows[0].0, group))] + rest else rest)
      case _ => None
  }

  /** `get_fetch` on the conversations in memory. */
  function Access(env: Env, c: Central, readable: bool, id: Id): (r: (Central, Result<Option<Conversation>, Error>))
  {
    var (cache, found) := c.cache.GetFetch(env.limiter, id, x => Fetch(env.mls, c.store.groups, readable, x));
    (c.(cache := cache), found)
  }

  /** `persist_group_when_changed` */
  function Persist(env: Env, store: Keystore, conv: Conversation, writable: bool): (r: (Keystore, bool))
  {
    var groups := store.groups.Upsert(conv.id, env.mls.serialise(conv.group));
    (if writable then store.(groups := groups) else store, writable)
  }

  /** Refused if the id is known; persisted first, then taken into memory. */
  function Add(env: Env, c: Central, id: Id, group: Option<Group>, io: Io): (r: (Central, Reply))
  {
    var (c', found) := Access(env, c, io.readable, id);
    if (found.Ok? && found.value.Some?) || (io.pendingReadable && id in c.store.pending.rows) then
      (c', Failed(ConversationAlreadyExists(id)))
    else if group.None? then (c', Failed(MlsError))
    else Insert(env, c', Conversation(id, group.value), io)
  }

  function Insert(env: Env, c: Central, conv: Conversation, io: Io): (r: (Central, Reply))
  {
    var (store, ok) := Persist(env, c.store, conv, io.writable);
    if ok then (Central(c.cache.Insert(env.limiter, conv.id, conv), store), Done) else (c, Failed(KeystoreError))
  }

  /** Whatever changes a group goes through its handle, and then persists it. */
  function ChangeOne(env: Env, c: Central, id: Id, group: Group, io: Io): (r: (Central, Reply))
  {
    var (c1, found) := Access(env, c, io.readable, id);
    match found
    case Err(e) => (c1, Failed(e))
    case Ok(None) => (c1, Failed(ConversationNotFound(id)))
    case Ok(Some(conv)) =>
      var changed := conv.(group := group);
      var (store, ok) := Persist(env, c1.store, changed, io.writable);
      (Central(c1.cache.Write(id, changed), store), if ok then Done else Failed(KeystoreError))
  }

  function Wipe(env: Env, c: Central, id: Id, io: Io): (r: (Central, Reply))
  {
    var (c1, found) := Access(env, c, io.readable, id);
    match found
    case Err(e) => (c1, Failed(e))
    case Ok(None) => (c1, Failed(ConversationNotFound(id)))
    case Ok(Some(_)) =>
      if !io.writable || id !in c1.store.groups.rows then (c1, Failed(KeystoreError))
      else (Central(c1.cache.Remove(id), c1.store.(groups := c1.store.groups.Delete(id))), Done)
  }

  function Join(env: Env, c: Central, id: Id, group: Group, io: Io): (r: (Central, Reply))
  {
    if !io.writable then (c, Failed(KeystoreError))
    else (c.(store := c.store.(pending := c.store.pending.Upsert(id, env.mls.serialise(group)))), Done)
  }

  /** The merged group replaces whatever there is under its id: a client may rejoin. */
  function Merge(env: Env, c: Central, id: Id, end: MergeEnd, io: Io): (r: (Central, Reply))
  {
    if !io.pendingReadable || id !in c.store.pending.rows then (c, Failed(KeystoreError))
    else
      var pending := env.mls.parse(c.store.pending.rows[id]);
      var merged := if pending.None? then None else env.mls.merge(pending.value);
      if merged.None? then (c, Failed(MlsError))
      else
        var conv := Conversation(id, merged.value);
        var (store, ok) := Persist(env, c.store, conv, io.writable);
        if !ok then (c, Failed(KeystoreError)) else Finish(env, c.(store := store), conv, end)
  }

  /** What follows once the merged group is persisted; where it fails, what was done is not undone. */
  function Finish(env: Env, c: Central, conv: Conversation, end: MergeEnd): (r: (Central, Reply))
  {
    if end.RestoreFails? then (c, Failed(MlsError))
    else
      var c1 := c.(cache := c.cache.Insert(env.limiter, conv.id, conv));
      if end.DeleteFails? then (c1, Failed(KeystoreError))
      else
        (c1.(store := c1.store.(pending := c1.store.pending.Delete(conv.id))),
         if end.CleanupFails? then Failed(KeystoreError) else Done)
  }

  function ClearPending(c: Central, id: Id, io: Io): (r: (Central, Reply))
  {
    if !io.writable || id !in c.store.pending.rows then (c, Failed(KeystoreError))
    else (c.(store := c.store.(pending := c.store.pending.Delete(id))), Done)
  }

  /** Each group comes from the keystore, even if there is one in memory. */
  function GetAll(env: Env, c: Central, io: Io): (r: (Central, Reply))
  {
    if !io.readable then (c, Failed(KeystoreError))
    else
      match FetchAll(env.mls, c.store.groups.FindAll())
      case None => (c, Failed(MlsError))
      case Some(items) => (c.(cache := c.cache.InsertAll(env.limiter, items)), All(Seconds(items)))
  }

  /** Takes rows into memory, active or not, until one does not fit. */
  function Restored(
      env: Env, rows: seq<(Id, Raw)>, cache: Lru<Id, Conversation>): (r: Result<Lru<Id, Conversation>, Error>)
    decreases |rows|
  {
    if rows == [] then Ok(cache)
    else
      match env.mls.parse(rows[0].1)
      case None => Err(MlsError)
      case Some(group) =>
        match cache.TryInsert(env.limiter, rows[0].0, Conversation(rows[0].0, group))
        case None => Ok(cache)
        case Some(cache') => Restored(env, rows[1..], cache')
  }

  /** The groups in memory are replaced before the PKI environment is restored, which may fail. */
  function Restore(env: Env, c: Central, pkiRestored: bool, io: Io): (r: (Central, Reply))
  {
    if !io.readable then (c, Failed(KeystoreError))
    else
      match Restored(env, env.listing(c.store.groups.FindAll()), Lru([], map[], c.cache.clock))
      case Err(e) => (c, Failed(e))
      case Ok(cache) => (c.(cache := cache), if pkiRestored then Done else Failed(PkiError))
  }

  function Step(env: Env, c: Central, call: Call): (r: (Central, Reply))
  {
    match call
    case NewConversation(id, group, io) => Add(env, c, id, group, io)
    case ProcessWelcome(id, group, io) =>
      // The welcome is read before the id is known.
      if group.None? then (c, Failed(MlsError)) else Add(env, c, id, group, io)
    case ConversationExists(id, io) =>
      var (c', found) := Access(env, c, io.readable, id);
      (c', Exists(found.Ok? && found.value.Some?))
    case Change(id, group, io) => ChangeOne(env, c, id, group, io)
    case WipeConversation(id, io) => Wipe(env, c, id, io)
    case JoinByExternalCommit(id, group, io) => Join(env, c, id, group, io)
    case MergePendingGroup(id, end, io) => Merge(env, c, id, end, io)
    case ClearPendingGroup(id, io) => ClearPending(c, id, io)
    case GetAllConversations(io) => GetAll(env, c, io)
    case RestoreFromDisk(pkiRestored, io) => Restore(env, c, pkiRestored, io)
  }
}

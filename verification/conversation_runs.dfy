/** Conversations over whole runs: none is replaced by a new one, and asking for one sees through the cache. */
module ConversationRuns {
  import opened Wrappers
  import opened Sequences
  import opened Tables
  import opened Machines
  import opened GroupStores
  import opened Conversations
  import opened ConversationLaws

  function Machine(env: Env): (Central, Call) -> (Central, Reply)
  {
    (c, call) => Step(env, c, call)
  }

  function After(env: Env, c: Central, calls: seq<Call>): (r: Central)
  {
    Run(Machine(env), c, calls).0
  }

  /** Reading changes neither table. */
  lemma {:induction false} AccessStore(env: Env, c: Central, readable: bool, id: Id)
    ensures Access(env, c, readable, id).0.store == c.store
    ensures Access(env, c, readable, id).1 ==
      if id in c.cache.entries then Ok(Some(c.cache.entries[id])) else Fetch(env.mls, c.store.groups, readable, id)
  {
  }

  // ----- one creation -----

  /** What keeps an id from being taken. */
  predicate Taken(env: Env, c: Central, id: Id, io: Io) {
    || id in c.cache.entries
    || (io.readable && StoredActive(env.mls, c.store.groups, id).Some?)
    || (io.pendingReadable && id in c.store.pending.rows)
  }

  /**
   A creation is refused exactly when the id is in memory, or read as an active or pending group in
   the keystore; then both tables stay as they are.
   */
  lemma {:induction false} CreationRefused(env: Env, c: Central, id: Id, made: Option<Group>, io: Io)
    ensures Step(env, c, NewConversation(id, made, io)).1 == Failed(ConversationAlreadyExists(id)) <==>
      Taken(env, c, id, io)
    ensures Taken(env, c, id, io) ==> Step(env, c, NewConversation(id, made, io)).0.store == c.store
  {
    hide Access;
    AccessStore(env, c, io.readable, id);
  }

  /** So it replaces an active stored group exactly when that group is neither in memory nor readable. */
  lemma {:induction false} CreationReplaces(env: Env, c: Central, id: Id, group: Group, io: Io)
    requires StoredActive(env.mls, c.store.groups, id).Some?
    ensures var (c', reply) := Step(env, c, NewConversation(id, Some(group), io));
      (reply == Done && c'.store.groups.rows == c.store.groups.rows[id := env.mls.serialise(group)]) <==>
        id !in c.cache.entries && !io.readable && !(io.pendingReadable && id in c.store.pending.rows) && io.writable
  {
    hide Access;
    AccessStore(env, c, io.readable, id);
  }

  // ----- runs -----

  /**
   The call leaves the group alive: it is not wiped, does not change to one without us, and new groups
   have us in them.
   */
  ghost predicate LeavesAlive(env: Env, id: Id, call: Call, reply: Reply) {
    match call
    case WipeConversation(x, _) => x == id ==> reply != Done
    case Change(x, group, _) => x == id ==> env.mls.active(group)
    case NewConversation(x, made, _) => x == id && made.Some? ==> env.mls.active(made.value)
    case ProcessWelcome(x, made, _) => x == id && made.Some? ==> env.mls.active(made.value)
    case _ => true
  }

  ghost predicate Alive(env: Env, c: Central, id: Id) {
    StoredActive(env.mls, c.store.groups, id).Some?
  }

  lemma {:induction false} PersistAlive(env: Env, store: Keystore, conv: Conversation, writable: bool, id: Id)
    requires env.mls.Lawful() && (conv.id == id ==> env.mls.active(conv.group))
    requires StoredActive(env.mls, store.groups, id).Some?
    ensures StoredActive(env.mls, Persist(env, store, conv, writable).0.groups, id).Some?
  {
    assert env.mls.parse(env.mls.serialise(conv.group)) == Some(conv.group);
  }

  lemma {:induction false} AddAlive(env: Env, c: Central, id: Id, x: Id, made: Option<Group>, io: Io)
    requires env.Lawful() && Alive(env, c, id) && (x == id && made.Some? ==> env.mls.active(made.value))
    ensures Alive(env, Add(env, c, x, made, io).0, id)
  {
    hide Access, Persist;
    AccessStore(env, c, io.readable, x);
    if made.Some? {
      PersistAlive(env, c.store, Conversation(x, made.value), io.writable, id);
    }
  }

  lemma {:induction false} ChangeAlive(env: Env, c: Central, id: Id, x: Id, group: Group, io: Io)
    requires env.Lawful() && Alive(env, c, id) && (x == id ==> env.mls.active(group))
    requires forall y :: y in c.cache.entries ==> c.cache.entries[y].id == y
    ensures Alive(env, ChangeOne(env, c, x, group, io).0, id)
  {
    hide Access, Persist;
    AccessStore(env, c, io.readable, x);
    PersistAlive(env, c.store, Conversation(x, group), io.writable, id);
  }

  lemma {:induction false} WipeAlive(env: Env, c: Central, id: Id, x: Id, io: Io)
    requires Alive(env, c, id) && (x == id ==> Wipe(env, c, x, io).1 != Done)
    ensures Alive(env, Wipe(env, c, x, io).0, id)
  {
    hide Access;
    AccessStore(env, c, io.readable, x);
  }

  lemma {:induction false} MergeAlive(env: Env, c: Central, id: Id, x: Id, end: MergeEnd, io: Io)
    requires env.Lawful() && Alive(env, c, id)
    ensures Alive(env, Merge(env, c, x, end, io).0, id)
  {
    hide Persist, Lru.Insert;
    if x in c.store.pending.rows && env.mls.parse(c.store.pending.rows[x]).Some? {
      var merged := env.mls.merge(env.mls.parse(c.store.pending.rows[x]).value);
      if merged.Some? {
        PersistAlive(env, c.store, Conversation(x, merged.value), io.writable, id);
      }
    }
  }

  // ----- what is in memory -----

  /** All entries are under their own ids, and `good`. */
  ghost predicate Entries(limiter: HybridMemoryLimiter<Id>, cache: Lru<Id, Conversation>, good: Id -> bool) {
    cache.Valid(limiter) && forall id :: id in cache.entries ==> cache.entries[id].id == id && good(id)
  }

  lemma {:induction false} InsertEntries(
      limiter: HybridMemoryLimiter<Id>, cache: Lru<Id, Conversation>, conv: Conversation, good: Id -> bool)
    requires limiter.len > 0 && Entries(limiter, cache, good) && good(conv.id)
    ensures Entries(limiter, cache.Insert(limiter, conv.id, conv), good)
  {
    hide Lru.Insert;
    InsertKeeps(limiter, cache, conv.id, conv);
  }

  lemma {:induction false} AccessEntries(env: Env, c: Central, readable: bool, id: Id, good: Id -> bool)
    requires env.limiter.len > 0 && Entries(env.limiter, c.cache, good)
    requires StoredActive(env.mls, c.store.groups, id).Some? ==> good(id)
    ensures Entries(env.limiter, Access(env, c, readable, id).0.cache, good)
  {
    hide Lru.Insert;
    if id in c.cache.entries {
      PromoteValid(env.limiter, c.cache, id);
    } else {
      var found := Fetch(env.mls, c.store.groups, readable, id);
      if found.Ok? && found.value.Some? {
        InsertEntries(env.limiter, c.cache, found.value.value, good);
      }
    }
  }

  lemma {:induction false} InsertAllEntries(
      limiter: HybridMemoryLimiter<Id>, cache: Lru<Id, Conversation>, items: seq<(Id, Conversation)>, good: Id -> bool)
    requires limiter.len > 0 && Entries(limiter, cache, good)
    requires forall item :: item in items ==> item.1.id == item.0 && good(item.0)
    ensures Entries(limiter, cache.InsertAll(limiter, items), good)
    decreases |items|
  {
    hide Lru.Insert, Entries;
    if items != [] {
      assert items[0] in items;
      InsertEntries(limiter, cache, items[0].1, good);
      InsertAllEntries(limiter, cache.Insert(limiter, items[0].0, items[0].1), items[1..], good);
    }
  }

  lemma {:induction false} RestoredEntries(
      env: Env, rows: seq<(Id, Raw)>, cache: Lru<Id, Conversation>, good: Id -> bool)
    requires Entries(env.limiter, cache, good)
    requires forall row :: row in rows && env.mls.parse(row.1).Some? ==> good(row.0)
    ensures var r := Restored(env, rows, cache);
      r.Ok? ==> Entries(env.limiter, r.value, good)
    decreases |rows|
  {
    if rows != [] && env.mls.parse(rows[0].1).Some? {
      assert rows[0] in rows;
      var (id, group) := (rows[0].0, env.mls.parse(rows[0].1).value);
      var inserted := cache.TryInsert(env.limiter, id, Conversation(id, group));
      if inserted.Some? {
        TryInsertValid(env.limiter, cache, id, Conversation(id, group));
        RestoredEntries(env, rows[1..], inserted.value, good);
      }
    }
  }

  lemma {:induction false} AddEntries(env: Env, c: Central, id: Id, made: Option<Group>, io: Io, good: Id -> bool)
    requires env.limiter.len > 0 && Entries(env.limiter, c.cache, good)
    requires StoredActive(env.mls, c.store.groups, id).Some? ==> good(id)
    requires Add(env, c, id, made, io).1 == Done ==> good(id)
    ensures Entries(env.limiter, Add(env, c, id, made, io).0.cache, good)
  {
    AccessEntries(env, c, io.readable, id, good);
    AccessStore(env, c, io.readable, id);
    hide Access, Lru.Insert, Entries, StoredActive;
    if Add(env, c, id, made, io).1 == Done {
      InsertEntries(env.limiter, Access(env, c, io.readable, id).0.cache, Conversation(id, made.value), good);
    }
  }

  lemma {:induction false} WriteEntries(
      limiter: HybridMemoryLimiter<Id>, cache: Lru<Id, Conversation>, conv: Conversation, good: Id -> bool)
    requires Entries(limiter, cache, good)
    ensures Entries(limiter, cache.Write(conv.id, conv), good)
  {
    if conv.id in cache.entries {
      assert cache.entries[conv.id := conv].Keys == cache.entries.Keys;
    }
  }

  lemma {:induction false} ChangeEntries(env: Env, c: Central, id: Id, group: Group, io: Io, good: Id -> bool)
    requires env.limiter.len > 0 && Entries(env.limiter, c.cache, good)
    requires StoredActive(env.mls, c.store.groups, id).Some? ==> good(id)
    ensures Entries(env.limiter, ChangeOne(env, c, id, group, io).0.cache, good)
  {
    AccessEntries(env, c, io.readable, id, good);
    AccessStore(env, c, io.readable, id);
    WriteEntries(env.limiter, Access(env, c, io.readable, id).0.cache, Conversation(id, group), good);
    assert Access(env, c, io.readable, id).1.Ok? && Access(env, c, io.readable, id).1.value.Some? ==>
      Access(env, c, io.readable, id).1.value.value.id == id;
    hide Access, Persist, StoredActive, Lru.Write, Entries;
  }

  lemma {:induction false} WipeEntries(env: Env, c: Central, id: Id, io: Io, good: Id -> bool)
    requires env.limiter.len > 0 && Entries(env.limiter, c.cache, good)
    requires StoredActive(env.mls, c.store.groups, id).Some? ==> good(id)
    ensures Entries(env.limiter, Wipe(env, c, id, io).0.cache, good)
    ensures Wipe(env, c, id, io).1 == Done ==> id !in Wipe(env, c, id, io).0.cache.entries
  {
    AccessEntries(env, c, io.readable, id, good);
    AccessStore(env, c, io.readable, id);
    RemoveValid(env.limiter, Access(env, c, io.readable, id).0.cache, id);
    hide Access, StoredActive;
  }

  /** The row persisted first says that the id is good, however the merge ends. */
  lemma {:induction false} MergeEntries(env: Env, c: Central, id: Id, end: MergeEnd, io: Io, good: Id -> bool)
    requires env.Lawful() && Entries(env.limiter, c.cache, good)
    requires StoredActive(env.mls, Merge(env, c, id, end, io).0.store.groups, id).Some? ==> good(id)
    ensures Entries(env.limiter, Merge(env, c, id, end, io).0.cache, good)
  {
    hide Lru.Insert, Entries;
    if Merge(env, c, id, end, io).0.cache != c.cache {
      var merged := env.mls.merge(env.mls.parse(c.store.pending.rows[id]).value).value;
      assert env.mls.parse(env.mls.serialise(merged)) == Some(merged);
      InsertEntries(env.limiter, c.cache, Conversation(id, merged), good);
    }
  }

  lemma {:induction false} FetchedIds(mls: Mls, rows: seq<(Id, Raw)>, item: (Id, Conversation))
    requires FetchAll(mls, rows).Some? && item in FetchAll(mls, rows).value
    ensures item.1.id == item.0
  {
    FetchAllContains(mls, rows, item.0, item.1);
  }

  lemma {:induction false} GetAllEntries(env: Env, c: Central, io: Io, good: Id -> bool)
    requires env.limiter.len > 0 && Entries(env.limiter, c.cache, good)
    requires forall id :: StoredActive(env.mls, c.store.groups, id).Some? ==> good(id)
    ensures Entries(env.limiter, GetAll(env, c, io).0.cache, good)
  {
    var rows := c.store.groups.FindAll();
    var items := FetchAll(env.mls, rows);
    if items.Some? {
      forall item | item in items.value
        ensures item.1.id == item.0 && good(item.0)
      {
        FetchedIds(env.mls, rows, item);
        FetchAllContains(env.mls, rows, item.0, item.1);
        RowsOnce(c.store.groups);
        assert StoredActive(env.mls, c.store.groups, item.0).Some?;
      }
      hide Entries, FetchAll, StoredActive;
      InsertAllEntries(env.limiter, c.cache, items.value, good);
    }
  }

  lemma {:induction false} RestoreEntries(env: Env, c: Central, pkiRestored: bool, io: Io, good: Id -> bool)
    requires env.Lawful() && Entries(env.limiter, c.cache, good)
    requires forall id :: id in c.store.groups.rows && env.mls.parse(c.store.groups.rows[id]).Some? ==> good(id)
    ensures Entries(env.limiter, Restore(env, c, pkiRestored, io).0.cache, good)
  {
    var rows := env.listing(c.store.groups.FindAll());
    RowsOnce(c.store.groups);
    assert forall row :: row in rows ==> row in c.store.groups.FindAll();
    hide Restored;
    RestoredEntries(env, rows, Lru([], map[], c.cache.clock), good);
  }

  /** Entities sit under their own ids. */
  ghost predicate Keyed(env: Env, c: Central) {
    Entries(env.limiter, c.cache, id => true)
  }

  /** What a call takes into memory is good if what it reads and what it makes is. */
  lemma {:induction false} CallEntries(env: Env, c: Central, call: Call, good: Id -> bool)
    requires env.Lawful() && Entries(env.limiter, c.cache, good)
    requires forall id :: StoredActive(env.mls, c.store.groups, id).Some? ==> good(id)
    requires (call.NewConversation? || call.ProcessWelcome?) && Step(env, c, call).1 == Done ==> good(call.id)
    requires call.MergePendingGroup? && Alive(env, Step(env, c, call).0, call.id) ==> good(call.id)
    requires call.RestoreFromDisk? ==>
      forall id :: id in c.store.groups.rows && env.mls.parse(c.store.groups.rows[id]).Some? ==> good(id)
    ensures Entries(env.limiter, Step(env, c, call).0.cache, good)
  {
    hide Access, Add, ChangeOne, Wipe, Merge, GetAll, Restore, Entries, StoredActive;
    match call
    case NewConversation(id, made, io) => AddEntries(env, c, id, made, io, good);
    case ProcessWelcome(id, made, io) =>
      if made.Some? {
        AddEntries(env, c, id, made, io, good);
      }
    case ConversationExists(id, io) => AccessEntries(env, c, io.readable, id, good);
    case Change(id, group, io) => ChangeEntries(env, c, id, group, io, good);
    case WipeConversation(id, io) => WipeEntries(env, c, id, io, good);
    case MergePendingGroup(id, end, io) => MergeEntries(env, c, id, end, io, good);
    case GetAllConversations(io) => GetAllEntries(env, c, io, good);
    case RestoreFromDisk(pkiRestored, io) => RestoreEntries(env, c, pkiRestored, io, good);
    case JoinByExternalCommit(id, group, io) =>
    case ClearPendingGroup(id, io) =>
  }

  lemma {:induction false} StepKeyed(env: Env, c: Central, call: Call)
    requires env.Lawful() && Keyed(env, c)
    ensures Keyed(env, Step(env, c, call).0)
  {
    hide Step, Entries;
    CallEntries(env, c, call, id => true);
  }

  // ----- a live conversation stays, and is never replaced by a new one -----

  lemma {:induction false} StepAlive(env: Env, c: Central, call: Call, id: Id)
    requires env.Lawful() && Keyed(env, c) && Alive(env, c, id) && LeavesAlive(env, id, call, Step(env, c, call).1)
    ensures Alive(env, Step(env, c, call).0, id)
  {
    match call
    case NewConversation(x, made, io) => AddAlive(env, c, id, x, made, io);
    case ProcessWelcome(x, made, io) => AddAlive(env, c, id, x, made, io);
    case ConversationExists(x, io) => AccessStore(env, c, io.readable, x);
    case Change(x, group, io) => ChangeAlive(env, c, id, x, group, io);
    case WipeConversation(x, io) => WipeAlive(env, c, id, x, io);
    case MergePendingGroup(x, end, io) => MergeAlive(env, c, id, x, end, io);
    case _ =>
      hide FetchAll, Restored;
  }

  /** The replies of a run to calls that leave the group alive. */
  ghost predicate AllLeaveAlive(env: Env, id: Id, calls: seq<Call>, replies: seq<Reply>)
    requires |calls| == |replies|
  {
    forall i :: 0 <= i < |calls| ==> LeavesAlive(env, id, calls[i], replies[i])
  }

  lemma {:induction false} RunAlive(env: Env, c: Central, calls: seq<Call>, id: Id)
    requires env.Lawful() && Keyed(env, c) && Alive(env, c, id)
    requires AllLeaveAlive(env, id, calls, Run(Machine(env), c, calls).1)
    ensures Keyed(env, After(env, c, calls)) && Alive(env, After(env, c, calls), id)
    decreases |calls|
  {
    if calls != [] {
      var (c1, reply) := Step(env, c, calls[0]);
      var replies := Run(Machine(env), c, calls).1;
      assert replies[0] == reply && replies[1..] == Run(Machine(env), c1, calls[1..]).1;
      hide Step, Alive, Keyed, LeavesAlive;
      StepKeyed(env, c, calls[0]);
      StepAlive(env, c, calls[0], id);
      assert AllLeaveAlive(env, id, calls[1..], Run(Machine(env), c1, calls[1..]).1);
      RunAlive(env, c1, calls[1..], id);
    }
  }

  /** The calls that make a conversation, and that they made one we are a member of. */
  ghost predicate Creates(env: Env, call: Call, id: Id) {
    match call
    case NewConversation(x, made, _) => x == id && made.Some? && env.mls.active(made.value)
    case ProcessWelcome(x, made, _) => x == id && made.Some? && env.mls.active(made.value)
    case MergePendingGroup(x, _, _) => x == id
    case _ => false
  }

  lemma {:induction false} AddCreates(env: Env, c: Central, id: Id, made: Option<Group>, io: Io)
    requires env.Lawful() && made.Some? && env.mls.active(made.value) && Add(env, c, id, made, io).1 == Done
    ensures Alive(env, Add(env, c, id, made, io).0, id)
  {
    hide Access;
    AccessStore(env, c, io.readable, id);
    assert env.mls.parse(env.mls.serialise(made.value)) == made;
  }

  lemma {:induction false} MergeCreates(env: Env, c: Central, id: Id, end: MergeEnd, io: Io)
    requires env.Lawful() && Merge(env, c, id, end, io).1 == Done
    ensures Alive(env, Merge(env, c, id, end, io).0, id)
  {
    var merged := env.mls.merge(env.mls.parse(c.store.pending.rows[id]).value).value;
    assert env.mls.parse(env.mls.serialise(merged)) == Some(merged);
    hide Lru.Insert;
  }

  lemma {:induction false} CreationIsAlive(env: Env, c: Central, create: Call, id: Id)
    requires env.Lawful() && Creates(env, create, id) && Step(env, c, create).1 == Done
    ensures Alive(env, Step(env, c, create).0, id)
  {
    hide Add, Merge, Alive;
    match create
    case NewConversation(x, made, io) => AddCreates(env, c, id, made, io);
    case ProcessWelcome(x, made, io) => AddCreates(env, c, id, made, io);
    case MergePendingGroup(x, end, io) => MergeCreates(env, c, id, end, io);
  }

  /**
   A conversation that was created, joined or rejoined, and neither wiped nor left since, is not
   replaced by a new one: whatever has been evicted or restored in between, the later creation is
   refused and the keystore stays as it is, as long as it can be read.
   */
  lemma {:induction false} NeverReplaced(
      env: Env, c: Central, create: Call, between: seq<Call>, id: Id, made: Option<Group>, io: Io)
    requires env.Lawful() && Keyed(env, c)
    requires Creates(env, create, id) && Step(env, c, create).1 == Done
    requires AllLeaveAlive(env, id, between, Run(Machine(env), Step(env, c, create).0, between).1)
    requires io.readable
    ensures var c' := After(env, Step(env, c, create).0, between);
      && Step(env, c', NewConversation(id, made, io)).1 == Failed(ConversationAlreadyExists(id))
      && Step(env, c', NewConversation(id, made, io)).0.store == c'.store
  {
    var c' := After(env, Step(env, c, create).0, between);
    assert Alive(env, c', id) by {
      hide *;
      StepKeyed(env, c, create);
      CreationIsAlive(env, c, create, id);
      RunAlive(env, Step(env, c, create).0, between, id);
    }
    hide Step, After;
    CreationRefused(env, c', id, made, io);
  }

  lemma {:induction false} StepPending(env: Env, c: Central, call: Call, id: Id)
    requires id in c.store.pending.rows
    requires !(call.MergePendingGroup? && call.id == id) && !(call.ClearPendingGroup? && call.id == id)
    ensures id in Step(env, c, call).0.store.pending.rows
  {
    hide Access, Restored, FetchAll, Lru.Insert;
    if call.NewConversation? || call.ProcessWelcome? || call.ConversationExists? || call.Change?
       || call.WipeConversation? {
      AccessStore(env, c, call.io.readable, call.id);
    }
  }

  /** Nor is a group that waits to be merged. */
  lemma {:induction false} PendingNeverReplaced(
      env: Env, c: Central, calls: seq<Call>, id: Id, made: Option<Group>, io: Io)
    requires id in c.store.pending.rows && io.pendingReadable
    requires forall i :: 0 <= i < |calls| ==>
      !(calls[i].MergePendingGroup? && calls[i].id == id) && !(calls[i].ClearPendingGroup? && calls[i].id == id)
    ensures var c' := After(env, c, calls);
      && Step(env, c', NewConversation(id, made, io)).1 == Failed(ConversationAlreadyExists(id))
      && Step(env, c', NewConversation(id, made, io)).0.store == c'.store
    decreases |calls|
  {
    hide Step;
    if calls == [] {
      CreationRefused(env, c, id, made, io);
    } else {
      StepPending(env, c, calls[0], id);
      PendingNeverReplaced(env, Step(env, c, calls[0]).0, calls[1..], id, made, io);
    }
  }

  // ----- asking whether a conversation exists -----

  /** Every conversation in memory is stored and active. */
  ghost predicate Backed(env: Env, c: Central) {
    Entries(env.limiter, c.cache, id => Alive(env, c, id))
  }

  /** The call takes no group into memory that this client has left. */
  ghost predicate Tame(env: Env, c: Central, call: Call) {
    match call
    case NewConversation(_, made, _) => made.Some? ==> env.mls.active(made.value)
    case ProcessWelcome(_, made, _) => made.Some? ==> env.mls.active(made.value)
    case Change(_, group, _) => env.mls.active(group)
    case RestoreFromDisk(_, _) =>
      forall id :: id in c.store.groups.rows && env.mls.parse(c.store.groups.rows[id]).Some? ==> Alive(env, c, id)
    case _ => true
  }

  lemma {:induction false} WipeBacked(env: Env, c: Central, id: Id, io: Io)
    requires env.Lawful() && Backed(env, c)
    ensures Backed(env, Wipe(env, c, id, io).0)
  {
    var c' := Wipe(env, c, id, io).0;
    WipeEntries(env, c, id, io, x => Alive(env, c, x));
    forall x | x in c'.cache.entries
      ensures Alive(env, c', x)
    {
      if x == id {
        WipeAlive(env, c, id, id, io);
      } else {
        WipeAlive(env, c, x, id, io);
      }
    }
    hide Wipe, Alive;
  }

  lemma {:induction false} StepBacked(env: Env, c: Central, call: Call)
    requires env.Lawful() && Backed(env, c) && Tame(env, c, call)
    ensures Backed(env, Step(env, c, call).0)
  {
    if call.WipeConversation? {
      hide Wipe, Backed;
      WipeBacked(env, c, call.id, call.io);
    } else {
      OthersBacked(env, c, call);
    }
  }

  lemma {:induction false} BackedKeyed(env: Env, c: Central)
    requires Backed(env, c)
    ensures Keyed(env, c)
  {
  }

  lemma {:induction false} MadeAlive(env: Env, c: Central, call: Call)
    requires env.Lawful() && Tame(env, c, call) && Step(env, c, call).1 == Done
    requires call.NewConversation? || call.ProcessWelcome?
    ensures Alive(env, Step(env, c, call).0, call.id)
  {
    hide Alive, Access, Merge;
    CreationIsAlive(env, c, call, call.id);
  }

  lemma {:induction false} TameLeavesAlive(env: Env, c: Central, call: Call, id: Id)
    requires Tame(env, c, call) && !call.WipeConversation?
    ensures LeavesAlive(env, id, call, Step(env, c, call).1)
  {
    hide Step;
  }

  lemma {:induction false} OthersBacked(env: Env, c: Central, call: Call)
    requires env.Lawful() && Backed(env, c) && Tame(env, c, call) && !call.WipeConversation?
    ensures Backed(env, Step(env, c, call).0)
  {
    var c' := Step(env, c, call).0;
    var good: Id -> bool := id => Alive(env, c', id);
    BackedKeyed(env, c);
    hide Step, Keyed, LeavesAlive;
    forall id | Alive(env, c, id)
      ensures good(id)
    {
      TameLeavesAlive(env, c, call, id);
      StepAlive(env, c, call, id);
    }
    assert Entries(env.limiter, c.cache, good);
    if (call.NewConversation? || call.ProcessWelcome?) && Step(env, c, call).1 == Done {
      MadeAlive(env, c, call);
    }
    hide Entries, StoredActive;
    CallEntries(env, c, call, good);
  }

  /** Each call of the run is tame where it happens. */
  ghost predicate TameRun(env: Env, c: Central, calls: seq<Call>)
    decreases |calls|
  {
    calls == [] || (Tame(env, c, calls[0]) && TameRun(env, Step(env, c, calls[0]).0, calls[1..]))
  }

  lemma {:induction false} RunBacked(env: Env, c: Central, calls: seq<Call>)
    requires env.Lawful() && Backed(env, c) && TameRun(env, c, calls)
    ensures Backed(env, After(env, c, calls))
    decreases |calls|
  {
    if calls != [] {
      hide Step, Backed, Tame;
      StepBacked(env, c, calls[0]);
      RunBacked(env, Step(env, c, calls[0]).0, calls[1..]);
    }
  }

  /** The answer is that of the keystore alone, exactly unless memory holds a group that is not stored as active. */
  lemma {:induction false} ExistsSeesThrough(env: Env, c: Central, id: Id, io: Io)
    requires io.readable
    ensures Step(env, c, ConversationExists(id, io)).1 == Exists(Alive(env, c, id)) <==>
      !(id in c.cache.entries && !Alive(env, c, id))
  {
    hide Access;
    AccessStore(env, c, true, id);
  }

  /**
   In a run that takes no left group into memory, asking whether a conversation exists answers
   whether it is stored and active, whatever was evicted.
   */
  lemma {:induction false} ExistsIsTransparent(env: Env, c: Central, calls: seq<Call>, id: Id, io: Io)
    requires env.Lawful() && Backed(env, c) && TameRun(env, c, calls) && io.readable
    ensures var c' := After(env, c, calls);
      Step(env, c', ConversationExists(id, io)).1 == Exists(Alive(env, c', id))
  {
    var c' := After(env, c, calls);
    assert Backed(env, c') by {
      hide *;
      RunBacked(env, c, calls);
    }
    hide Step, After, Alive;
    ExistsSeesThrough(env, c', id, io);
  }

  /** Restoring takes left groups into memory: then such a group exists, until it is evicted. */
  lemma {:induction false} RestoredLeftGroupExists(
      env: Env, id: Id, raw: Raw, group: Group, clock: nat, pkiRestored: bool, io: Io)
    requires env.Lawful() && env.limiter.LengthOnly() && io.readable
    requires env.mls.parse(raw) == Some(group) && !env.mls.active(group)
    requires env.listing([(id, raw)]) == [(id, raw)]
    ensures var c := Central(Lru([], map[], clock), Keystore(Rows([id], map[id := raw]), Rows([], map[])));
      var c' := Step(env, c, RestoreFromDisk(pkiRestored, io)).0;
      && Step(env, c, ConversationExists(id, io)).1 == Exists(false)
      && Step(env, c', ConversationExists(id, io)).1 == Exists(true)
  {
    var groups: Table<Id, Raw> := Rows([id], map[id := raw]);
    var cache: Lru<Id, Conversation> := Lru([], map[], clock);
    assert groups.FindAll() == [(id, raw)];
    assert env.limiter.mem(clock) == MemoryPressure({}, false);
    var conv := Conversation(id, group);
    assert cache.TryInsert(env.limiter, id, conv).Some?;
    assert [(id, raw)][1..] == [];
    assert Restored(env, [(id, raw)], cache) == Ok(cache.TryInsert(env.limiter, id, conv).value);
  }
}
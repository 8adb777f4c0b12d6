/**
 The MLS client (crypto/src/mls/mod.rs and its neighbours): an object that holds the conversations
 in memory and the keystore. Each method is proved to do what `Conversations.Step` says of its call.
 */
module MlsCentrals {
  import opened Wrappers
  import opened Tables
  import opened GroupStores
  import opened Conversations
  import opened ConversationLaws
  import opened ConversationRuns
  import opened Sequences

  class CryptoKeystore {
    var groups: Table<Id, Raw>
    var pending: Table<Id, Raw>

    constructor (groups: Table<Id, Raw>, pending: Table<Id, Raw>)
      ensures View() == Keystore(groups, pending)
    {
      this.groups, this.pending := groups, pending;
    }

    function View(): (v: Keystore)
      reads this
    {
      Keystore(groups, pending)
    }

    method SaveGroup(id: Id, raw: Raw, writable: bool)
      modifies this
      ensures View() == if writable then old(View()).(groups := old(groups).Upsert(id, raw)) else old(View())
    {
      if writable { groups := groups.Upsert(id, raw); }
    }

    method DeleteGroup(id: Id, writable: bool) returns (ok: bool)
      modifies this
      ensures ok <==> writable && id in old(groups).rows
      ensures View() == if ok then old(View()).(groups := old(groups).Delete(id)) else old(View())
    {
      ok := writable && id in groups.rows;
      if ok { groups := groups.Delete(id); }
    }

    method SavePending(id: Id, raw: Raw, writable: bool)
      modifies this
      ensures View() == if writable then old(View()).(pending := old(pending).Upsert(id, raw)) else old(View())
    {
      if writable { pending := pending.Upsert(id, raw); }
    }

    method DeletePending(id: Id, writable: bool) returns (ok: bool)
      modifies this
      ensures ok <==> writable && id in old(pending).rows
      ensures View() == if ok then old(View()).(pending := old(pending).Delete(id)) else old(View())
    {
      ok := writable && id in pending.rows;
      if ok { pending := pending.Delete(id); }
    }
  }

  type Handle = GroupStoreValue<Conversation>

  class MlsCentral {
    const env: Env
    const keystore: CryptoKeystore
    var mlsGroups: GroupStore<Id, Conversation>

    ghost predicate Valid()
      reads this, mlsGroups
    {
      mlsGroups.Valid() && mlsGroups.limiter == env.limiter && env.limiter.len > 0
    }

    ghost function Repr(): set<object>
      reads this, mlsGroups
    {
      {this, mlsGroups, keystore} + mlsGroups.Handles()
    }

    ghost function View(): (c: Central)
      reads this, Repr()
    {
      Central(mlsGroups.View(), keystore.View())
    }

    constructor (env: Env, keystore: CryptoKeystore, mlsGroups: GroupStore<Id, Conversation>)
      requires mlsGroups.Valid() && mlsGroups.limiter == env.limiter && env.limiter.len > 0
      ensures Valid() && this.env == env && this.keystore == keystore && this.mlsGroups == mlsGroups
    {
      this.env, this.keystore, this.mlsGroups := env, keystore, mlsGroups;
    }

    /** The handle found holds the conversation found. */
    ghost predicate Answers(r: Result<Option<Handle>, Error>, found: Result<Option<Conversation>, Error>)
      reads if r.Ok? && r.value.Some? then {r.value.value} else {}
    {
      match found
      case Err(e) => r == Err(e)
      case Ok(None) => r == Ok(None)
      case Ok(Some(conv)) => r.Ok? && r.value.Some? && r.value.value.value == conv
    }

    /** `get_fetch` on the conversations in memory. */
    method GetFetch(id: Id, readable: bool) returns (r: Result<Option<Handle>, Error>)
      requires Valid()
      modifies this, mlsGroups
      ensures Valid() && mlsGroups == old(mlsGroups) && fresh(Repr() - old(Repr()))
      ensures View() == Access(env, old(View()), readable, id).0
      ensures Answers(r, Access(env, old(View()), readable, id).1)
      ensures r.Ok? && r.value.Some? ==> id in mlsGroups.lru.entries && mlsGroups.lru.entries[id] == r.value.value
    {
      hide Lru.Insert, Lru.Promote;
      var groups := keystore.groups;
      r := mlsGroups.GetFetch(id, x => Fetch(env.mls, groups, readable, x));
    }

    method ConversationExists(id: Id, io: Io) returns (known: bool)
      requires Valid()
      modifies this, mlsGroups
      ensures Valid() && mlsGroups == old(mlsGroups) && fresh(Repr() - old(Repr()))
      ensures (View(), Exists(known)) == Step(env, old(View()), Call.ConversationExists(id, io))
    {
      hide Access;
      var found := GetFetch(id, io.readable);
      known := found.Ok? && found.value.Some?;
    }

    method PersistAndInsert(conv: Conversation, io: Io) returns (r: Reply)
      requires Valid()
      modifies Repr()
      ensures Valid() && mlsGroups == old(mlsGroups) && fresh(Repr() - old(Repr()))
      ensures (View(), r) == Insert(env, old(View()), conv, io)
    {
      hide Lru.Insert;
      keystore.SaveGroup(conv.id, env.mls.serialise(conv.group), io.writable);
      if !io.writable { return Failed(KeystoreError); }
      mlsGroups.Insert(conv.id, conv);
      r := Done;
    }

    /** What a new conversation and a welcome have in common. */
    method AddConversation(id: Id, made: Option<Group>, io: Io) returns (r: Reply)
      requires Valid()
      modifies Repr()
      ensures Valid() && mlsGroups == old(mlsGroups) && fresh(Repr() - old(Repr()))
      ensures (View(), r) == Add(env, old(View()), id, made, io)
    {
      AccessStore(env, View(), io.readable, id);
      hide Access, Conversations.Insert, GroupStore.View, Deref;
      var found := GetFetch(id, io.readable);
      var conversationExists := found.Ok? && found.value.Some?;
      var pendingGroupExists := io.pendingReadable && id in keystore.pending.rows;
      if conversationExists || pendingGroupExists { return Failed(ConversationAlreadyExists(id)); }
      if made.None? { return Failed(MlsError); }
      r := PersistAndInsert(Conversation(id, made.value), io);
    }

    method NewConversation(id: Id, made: Option<Group>, io: Io) returns (r: Reply)
      requires Valid()
      modifies Repr()
      ensures Valid() && mlsGroups == old(mlsGroups) && fresh(Repr() - old(Repr()))
      ensures (View(), r) == Step(env, old(View()), Call.NewConversation(id, made, io))
    {
      hide Add;
      r := AddConversation(id, made, io);
    }

    method ProcessWelcome(id: Id, made: Option<Group>, io: Io) returns (r: Reply)
      requires Valid()
      modifies Repr()
      ensures Valid() && mlsGroups == old(mlsGroups) && fresh(Repr() - old(Repr()))
      ensures (View(), r) == Step(env, old(View()), Call.ProcessWelcome(id, made, io))
    {
      hide Add;
      if made.None? { return Failed(MlsError); }
      r := AddConversation(id, made, io);
    }

    /** If the conversation is in memory at all, it is behind this handle, and nothing else is. */
    ghost predicate IsHandleOf(handle: Handle, id: Id)
      reads this, mlsGroups
    {
      forall k :: k in mlsGroups.lru.entries ==> (mlsGroups.lru.entries[k] == handle <==> k == id)
    }

    /** Locks the handle of a conversation and puts a new group in it. */
    method WriteThrough(id: Id, handle: Handle, group: Group)
      requires Valid() && IsHandleOf(handle, id)
      modifies handle
      ensures Valid() && handle.value == old(handle.value).(group := group)
      ensures View() == old(View()).(cache := old(View()).cache.Write(id, handle.value))
    {
      handle.value := handle.value.(group := group);
      assert mlsGroups.View().entries == old(mlsGroups.View()).Write(id, handle.value).entries;
    }

    method PersistGroup(conv: Conversation, io: Io) returns (ok: bool)
      modifies keystore
      ensures (keystore.View(), ok) == Persist(env, old(keystore.View()), conv, io.writable)
    {
      keystore.SaveGroup(conv.id, env.mls.serialise(conv.group), io.writable);
      ok := io.writable;
    }

    method ChangeAndPersist(id: Id, handle: Handle, group: Group, io: Io) returns (r: Reply)
      requires Valid() && IsHandleOf(handle, id)
      modifies handle, keystore
      ensures Valid() && handle.value == old(handle.value).(group := group)
      ensures var changed := old(handle.value).(group := group);
        var (store, ok) := Persist(env, old(View()).store, changed, io.writable);
        && View() == Central(old(View()).cache.Write(id, changed), store)
        && r == if ok then Done else Failed(KeystoreError)
    {
      hide Persist, Lru.Write;
      WriteThrough(id, handle, group);
      var ok := PersistGroup(handle.value, io);
      r := if ok then Done else Failed(KeystoreError);
    }

    /** What all calls that change a group do in the end. */
    method ChangeGroup(id: Id, group: Group, io: Io) returns (r: Reply)
      requires Valid()
      modifies Repr()
      ensures Valid() && mlsGroups == old(mlsGroups) && fresh(Repr() - old(Repr()))
      ensures (View(), r) == Step(env, old(View()), Change(id, group, io))
    {
      hide Access, Lru.Write, Persist, View, GroupStore.View, Deref;
      var found := GetFetch(id, io.readable);
      if found.Err? { return Failed(found.error); }
      if found.value.None? { return Failed(ConversationNotFound(id)); }
      r := ChangeAndPersist(id, found.value.value, group, io);
    }

    method DeleteAndRemove(id: Id, io: Io) returns (r: Reply)
      requires Valid()
      modifies mlsGroups, keystore
      ensures Valid() && fresh(Repr() - old(Repr()))
      ensures (View(), r) ==
        if !io.writable || id !in old(View()).store.groups.rows then (old(View()), Failed(KeystoreError))
        else
          var store := old(View()).store;
          (Central(old(View()).cache.Remove(id), store.(groups := store.groups.Delete(id))), Done)
    {
      hide Lru.Remove, Deref, Lru.Valid;
      var ok := keystore.DeleteGroup(id, io.writable);
      if !ok { return Failed(KeystoreError); }
      var _ := mlsGroups.Remove(id);
      r := Done;
    }

    method WipeConversation(id: Id, io: Io) returns (r: Reply)
      requires Valid()
      modifies Repr()
      ensures Valid() && mlsGroups == old(mlsGroups) && fresh(Repr() - old(Repr()))
      ensures (View(), r) == Step(env, old(View()), Call.WipeConversation(id, io))
    {
      hide Access, Lru.Remove, View, GroupStore.View, Deref;
      var found := GetFetch(id, io.readable);
      if found.Err? { return Failed(found.error); }
      if found.value.None? { return Failed(ConversationNotFound(id)); }
      r := DeleteAndRemove(id, io);
    }

    method MergePendingGroup(id: Id, end: MergeEnd, io: Io) returns (r: Reply)
      requires Valid()
      modifies Repr()
      ensures Valid() && mlsGroups == old(mlsGroups) && fresh(Repr() - old(Repr()))
      ensures (View(), r) == Step(env, old(View()), Call.MergePendingGroup(id, end, io))
    {
      hide Conversations.Finish, GroupStore.View, Deref;
      if !io.pendingReadable || id !in keystore.pending.rows { return Failed(KeystoreError); }
      var pending := env.mls.parse(keystore.pending.rows[id]);
      if pending.None? { return Failed(MlsError); }
      var merged := env.mls.merge(pending.value);
      if merged.None? { return Failed(MlsError); }
      var conv := Conversation(id, merged.value);
      var ok := PersistGroup(conv, io);
      if !ok { return Failed(KeystoreError); }
      r := FinishMerge(conv, end);
    }

    method FinishMerge(conv: Conversation, end: MergeEnd) returns (r: Reply)
      requires Valid()
      modifies Repr()
      ensures Valid() && mlsGroups == old(mlsGroups) && fresh(Repr() - old(Repr()))
      ensures (View(), r) == Finish(env, old(View()), conv, end)
    {
      hide Lru.Insert;
      if end.RestoreFails? { return Failed(MlsError); }
      mlsGroups.Insert(conv.id, conv);
      if end.DeleteFails? { return Failed(KeystoreError); }
      keystore.pending := keystore.pending.Delete(conv.id);
      r := if end.CleanupFails? then Failed(KeystoreError) else Done;
    }

    method JoinByExternalCommit(id: Id, group: Group, io: Io) returns (r: Reply)
      requires Valid()
      modifies keystore
      ensures Valid() && (View(), r) == Step(env, old(View()), Call.JoinByExternalCommit(id, group, io))
    {
      keystore.SavePending(id, env.mls.serialise(group), io.writable);
      r := if io.writable then Done else Failed(KeystoreError);
    }

    method ClearPendingGroup(id: Id, io: Io) returns (r: Reply)
      requires Valid()
      modifies keystore
      ensures Valid() && (View(), r) == Step(env, old(View()), Call.ClearPendingGroup(id, io))
    {
      var ok := keystore.DeletePending(id, io.writable);
      r := if ok then Done else Failed(KeystoreError);
    }

    method RestoreFromDisk(pkiRestored: bool, io: Io) returns (r: Reply)
      requires Valid()
      modifies this
      ensures Valid() && fresh(Repr() - old(Repr()))
      ensures (View(), r) == Step(env, old(View()), Call.RestoreFromDisk(pkiRestored, io))
    {
      hide Restored;
      if !io.readable { return Failed(KeystoreError); }
      ghost var before := View();
      var restored := RestoreGroups(env, keystore, mlsGroups.lru.clock);
      assert View() == before;
      hide Deref, GroupStore.View;
      if restored.Err? { return Failed(restored.error); }
      mlsGroups := restored.value;
      r := if pkiRestored then Done else Failed(PkiError);
    }

    /** The handles of these conversations, none of them shared. */
    ghost predicate Holds(handles: seq<Handle>, conversations: seq<Conversation>)
      reads this, mlsGroups, handles
    {
      && |handles| == |conversations|
      && (forall i :: 0 <= i < |handles| ==> handles[i].value == conversations[i])
      && (forall i :: 0 <= i < |handles| ==> IsHandleOf(handles[i], conversations[i].id))
      && (forall i, j :: 0 <= i < j < |handles| ==> handles[i] != handles[j])
    }

    /** `get_fetch_all` with what was read from the keystore. */
    method GetFetchAll(items: seq<(Id, Conversation)>) returns (handles: seq<Handle>)
      requires Valid() && NoDup(Firsts(items)) && forall item :: item in items ==> item.1.id == item.0
      modifies mlsGroups
      ensures Valid() && fresh(Repr() - old(Repr())) && fresh(set h | h in handles)
      ensures View() == old(View()).(cache := old(View()).cache.InsertAll(env.limiter, items))
      ensures Holds(handles, Seconds(items))
    {
      hide Lru.InsertAll, Lru.Valid, Deref;
      ghost var before := mlsGroups.lru;
      var fetched: Result<seq<(Id, Conversation)>, Error> := Ok(items);
      var r := mlsGroups.GetFetchAll(fetched);
      handles := r.value;
      FetchedHandles(env.limiter, before, items, handles);
    }

    method GetAllConversations(io: Io) returns (r: Result<seq<Handle>, Error>)
      requires Valid()
      modifies mlsGroups
      ensures Valid() && fresh(Repr() - old(Repr()))
      ensures View() == GetAll(env, old(View()), io).0
      ensures match GetAll(env, old(View()), io).1
              case All(conversations) => r.Ok? && Holds(r.value, conversations) && fresh(set h | h in r.value)
              case reply => reply.Failed? && r == Err(reply.error)
    {
      hide FetchAll, Rows.FindAll, Lru.InsertAll, Deref, GroupStore.View, Holds;
      if !io.readable { return Err(KeystoreError); }
      var items := FetchAll(env.mls, keystore.groups.FindAll());
      if items.None? { return Err(MlsError); }
      FetchedOnce(env.mls, keystore.groups);
      var handles := GetFetchAll(items.value);
      r := Ok(handles);
    }
  }

  lemma {:induction false} FetchedOnce(mls: Mls, groups: Table<Id, Raw>)
    requires FetchAll(mls, groups.FindAll()).Some?
    ensures var items := FetchAll(mls, groups.FindAll()).value;
      NoDup(Firsts(items)) && forall item :: item in items ==> item.1.id == item.0
  {
    RowsOnce(groups);
    FetchAllOnce(mls, groups.FindAll());
    forall item | item in FetchAll(mls, groups.FindAll()).value
      ensures item.1.id == item.0
    {
      FetchedIds(mls, groups.FindAll(), item);
    }
  }

  /** New handles that went in one after the other are where their keys are, and nowhere else. */
  lemma {:induction false} FetchedHandles<V>(
      limiter: HybridMemoryLimiter<Id>, before: Lru<Id, GroupStoreValue<V>>, items: seq<(Id, V)>,
      handles: seq<GroupStoreValue<V>>)
    requires before.Valid(limiter) && limiter.len > 0 && NoDup(Firsts(items)) && |handles| == |items|
    requires forall i :: 0 <= i < |handles| ==> handles[i] !in before.entries.Values
    requires forall i, j :: 0 <= i < j < |handles| ==> handles[i] != handles[j]
    ensures var entries := before.InsertAll(limiter, Zip(Firsts(items), handles)).entries;
      forall i, k :: 0 <= i < |items| && k in entries ==> (entries[k] == handles[i] <==> k == items[i].0)
  {
    var put := Zip(Firsts(items), handles);
    assert Firsts(put) == Firsts(items);
    var entries := before.InsertAll(limiter, put).entries;
    hide Lru.InsertAll, Lru.Valid;
    forall i, k | 0 <= i < |items| && k in entries
      ensures entries[k] == handles[i] <==> k == items[i].0
    {
      InsertAllFinds(limiter, before, put, k);
      if k in Firsts(put) {
        var j :| 0 <= j < |put| && Firsts(put)[j] == k;
        assert put[j].0 == k && entries[k] == handles[j];
        assert Firsts(items)[i] == items[i].0 && Firsts(items)[j] == k;
      } else {
        assert before.entries[k] in before.entries.Values;
        assert Firsts(put)[i] == items[i].0;
      }
    }
  }

  method RestoreGroups(
      env: Env, keystore: CryptoKeystore, clock: nat) returns (r: Result<GroupStore<Id, Conversation>, Error>)
    ensures match Restored(env, env.listing(keystore.groups.FindAll()), Lru([], map[], clock))
            case Err(e) => r == Err(e)
            case Ok(cache) => r.Ok? && RestoredAs(r.value, env, cache) && fresh(r.value) && fresh(r.value.Handles())
  {
    var store := new GroupStore<Id, Conversation>(env.limiter, clock);
    var rows := env.listing(keystore.groups.FindAll());
    ghost var restored := Restored(env, rows, Lru([], map[], clock));
    var i := 0;
    while i < |rows|
      invariant 0 <= i <= |rows|
      invariant store.Valid() && store.limiter == env.limiter && fresh(store) && fresh(store.Handles())
      invariant Restored(env, rows[i..], store.View()) == restored
    {
      var (id, raw) := rows[i];
      var group := env.mls.parse(raw);
      if group.None? { return Err(MlsError); }
      var inserted := store.TryInsert(id, Conversation(id, group.value));
      if inserted.Err? { break; }
      assert rows[i..][1..] == rows[i + 1..];
      i := i + 1;
    }
    r := Ok(store);
  }

  ghost predicate RestoredAs(store: GroupStore<Id, Conversation>, env: Env, cache: Lru<Id, Conversation>)
    reads store, store.Handles()
  {
    store.Valid() && store.limiter == env.limiter && store.View() == cache
  }
}

/**
 What the conversation calls do to one id, told from the calls and their replies alone: the ledger of
 an id has the stored group and the pending one, and every call moves it on by what it was asked to do.
 */
module ConversationLedgers {
  import opened Wrappers
  import opened Sequences
  import opened Tables
  import opened Machines
  import opened GroupStores
  import opened Conversations
  import opened ConversationLaws
  import opened ConversationRuns

  datatype Ledger = Ledger(group: Option<Raw>, pending: Option<Raw>)

  /** What the keystore has under this id. */
  function Entry(c: Central, id: Id): (l: Ledger)
  {
    Ledger(c.store.groups.Find(id), c.store.pending.Find(id))
  }

  /** What becomes of a pending group when it is merged. */
  function Merged(mls: Mls, pending: Option<Raw>): (group: Option<Group>)
  {
    if pending.None? || mls.parse(pending.value).None? then None else mls.merge(mls.parse(pending.value).value)
  }

  /** A merge gets as far as persisting the group. */
  predicate MergePersists(mls: Mls, l: Ledger, io: Io) {
    io.pendingReadable && io.writable && Merged(mls, l.pending).Some?
  }

  /** The ledger of an id after a call, which may be about another id. */
  function Record(mls: Mls, l: Ledger, id: Id, call: Call, reply: Reply): (l': Ledger)
  {
    match call
    case NewConversation(x, made, _) =>
      if x == id && reply == Done && made.Some? then l.(group := Some(mls.serialise(made.value))) else l
    case ProcessWelcome(x, made, _) =>
      if x == id && reply == Done && made.Some? then l.(group := Some(mls.serialise(made.value))) else l
    case Change(x, group, _) =>
      if x == id && reply == Done then l.(group := Some(mls.serialise(group))) else l
    case WipeConversation(x, _) => if x == id && reply == Done then l.(group := None) else l
    case JoinByExternalCommit(x, group, _) =>
      if x == id && reply == Done then l.(pending := Some(mls.serialise(group))) else l
    case ClearPendingGroup(x, _) => if x == id && reply == Done then l.(pending := None) else l
    case MergePendingGroup(x, end, io) =>
      if x != id || !MergePersists(mls, l, io) then l
      else Ledger(
        Some(mls.serialise(Merged(mls, l.pending).value)),
        if end.CleanupFails? || end.Completes? then None else l.pending)
    case _ => l
  }

  // ----- each call -----

  lemma {:induction false} AddRecords(env: Env, c: Central, x: Id, made: Option<Group>, io: Io, id: Id)
    ensures var (c', reply) := Add(env, c, x, made, io);
      Entry(c', id) ==
        if x == id && reply == Done && made.Some? then Entry(c, id).(group := Some(env.mls.serialise(made.value)))
        else Entry(c, id)
  {
    AccessStore(env, c, io.readable, x);
    hide Access, Lru.Insert;
  }

  lemma {:induction false} ChangeRecords(env: Env, c: Central, x: Id, group: Group, io: Io, id: Id)
    requires Keyed(env, c)
    ensures var (c', reply) := ChangeOne(env, c, x, group, io);
      Entry(c', id) ==
        if x == id && reply == Done then Entry(c, id).(group := Some(env.mls.serialise(group))) else Entry(c, id)
  {
    AccessStore(env, c, io.readable, x);
    hide Access, Lru.Write;
  }

  lemma {:induction false} WipeRecords(env: Env, c: Central, x: Id, io: Io, id: Id)
    ensures var (c', reply) := Wipe(env, c, x, io);
      Entry(c', id) == if x == id && reply == Done then Entry(c, id).(group := None) else Entry(c, id)
  {
    AccessStore(env, c, io.readable, x);
    hide Access, Lru.Remove;
  }

  lemma {:induction false} MergeRecords(env: Env, c: Central, x: Id, end: MergeEnd, io: Io, id: Id)
    ensures var (c', reply) := Merge(env, c, x, end, io);
      && Entry(c', id) == Record(env.mls, Entry(c, id), id, MergePendingGroup(x, end, io), reply)
      && (reply == Done <==> end.Completes? && MergePersists(env.mls, Entry(c, x), io))
  {
    hide Lru.Insert;
  }

  /** One call moves the ledger of each id on by what its reply says. */
  lemma {:induction false} StepRecords(env: Env, c: Central, call: Call, id: Id)
    requires Keyed(env, c)
    ensures var (c', reply) := Step(env, c, call);
      Entry(c', id) == Record(env.mls, Entry(c, id), id, call, reply)
  {
    hide Add, ChangeOne, Wipe, Merge, Access, MergePersists, FetchAll, Restored, Keyed, Lru.InsertAll;
    match call
    case NewConversation(x, made, io) => AddRecords(env, c, x, made, io, id);
    case ProcessWelcome(x, made, io) => AddRecords(env, c, x, made, io, id);
    case ConversationExists(x, io) => AccessStore(env, c, io.readable, x);
    case Change(x, group, io) => ChangeRecords(env, c, x, group, io, id);
    case WipeConversation(x, io) => WipeRecords(env, c, x, io, id);
    case MergePendingGroup(x, end, io) => MergeRecords(env, c, x, end, io, id);
    case _ =>
  }

  // ----- whole runs -----

  /** The calls one after the other, with their replies. */
  function RecordAll(mls: Mls, l: Ledger, id: Id, calls: seq<Call>, replies: seq<Reply>): (l': Ledger)
    requires |calls| == |replies|
    decreases |calls|
  {
    if calls == [] then l
    else RecordAll(mls, Record(mls, l, id, calls[0], replies[0]), id, calls[1..], replies[1..])
  }

  /**
   After every run, whatever was evicted, restored or failed, the keystore has under each id what the
   calls about that id, with the replies they got, say it has.
   */
  lemma {:induction false} RunRecords(env: Env, c: Central, calls: seq<Call>, id: Id)
    requires env.Lawful() && Keyed(env, c)
    ensures var (end, replies) := Run(Machine(env), c, calls);
      Entry(end, id) == RecordAll(env.mls, Entry(c, id), id, calls, replies)
    decreases |calls|
  {
    if calls != [] {
      var (c1, reply) := Step(env, c, calls[0]);
      var replies := Run(Machine(env), c, calls).1;
      assert replies[0] == reply && replies[1..] == Run(Machine(env), c1, calls[1..]).1;
      hide Step, Keyed, Record;
      StepKeyed(env, c, calls[0]);
      StepRecords(env, c, calls[0], id);
      RunRecords(env, c1, calls[1..], id);
    }
  }

  // ----- what the calls answer -----

  /** The group stored under an id, if it can be read and this client is a member of it. */
  function ReadActive(mls: Mls, l: Ledger, readable: bool): (r: Option<Group>)
  {
    if !readable || l.group.None? || mls.parse(l.group.value).None? then None
    else
      var group := mls.parse(l.group.value).value;
      if mls.active(group) then Some(group) else None
  }

  /** A conversation is found in memory, or read as an active one. */
  predicate Known(env: Env, c: Central, id: Id, readable: bool) {
    id in c.cache.entries || ReadActive(env.mls, Entry(c, id), readable).Some?
  }

  lemma {:induction false} KnownWhen(env: Env, c: Central, id: Id, readable: bool)
    ensures var found := Access(env, c, readable, id).1;
      (found.Ok? && found.value.Some?) <==> Known(env, c, id, readable)
    ensures Access(env, c, readable, id).0.store == c.store
  {
    AccessStore(env, c, readable, id);
    hide Access;
  }

  /** Finding the conversation fails: the keystore cannot be read, or what it has under the id cannot. */
  ghost predicate FindFails(env: Env, c: Central, id: Id, readable: bool, error: Error) {
    && id !in c.cache.entries
    && if !readable then error == KeystoreError
       else error == MlsError && Entry(c, id).group.Some? && env.mls.parse(Entry(c, id).group.value).None?
  }

  ghost predicate Taken(env: Env, c: Central, id: Id, io: Io) {
    Known(env, c, id, io.readable) || (io.pendingReadable && Entry(c, id).pending.Some?)
  }

  /** What creating, joining and changing calls answer, in terms of what is in memory and in the keystore. */
  ghost predicate Answered(env: Env, c: Central, call: Call, reply: Reply) {
    match call
    case NewConversation(id, made, io) =>
      reply == if Taken(env, c, id, io) then Failed(ConversationAlreadyExists(id))
               else if made.None? then Failed(MlsError)
               else if io.writable then Done else Failed(KeystoreError)
    case ProcessWelcome(id, made, io) =>
      reply == if made.None? then Failed(MlsError)
               else if Taken(env, c, id, io) then Failed(ConversationAlreadyExists(id))
               else if io.writable then Done else Failed(KeystoreError)
    case ConversationExists(id, io) => reply == Exists(Known(env, c, id, io.readable))
    case Change(id, _, io) =>
      if Known(env, c, id, io.readable) then reply == (if io.writable then Done else Failed(KeystoreError))
      else NotFound(env, c, id, io, reply)
    case WipeConversation(id, io) =>
      if Known(env, c, id, io.readable) then
        reply == (if io.writable && Entry(c, id).group.Some? then Done else Failed(KeystoreError))
      else NotFound(env, c, id, io, reply)
    case JoinByExternalCommit(_, _, io) => reply == if io.writable then Done else Failed(KeystoreError)
    case ClearPendingGroup(id, io) =>
      reply == if io.writable && Entry(c, id).pending.Some? then Done else Failed(KeystoreError)
    case MergePendingGroup(id, end, io) =>
      reply == if !io.pendingReadable || Entry(c, id).pending.None? then Failed(KeystoreError)
               else if Merged(env.mls, Entry(c, id).pending).None? then Failed(MlsError)
               else if !io.writable then Failed(KeystoreError)
               else if end.RestoreFails? then Failed(MlsError)
               else if end.Completes? then Done else Failed(KeystoreError)
    case _ => true
  }

  /** An id that is not known: finding it fails, or there is nothing, or no group this client is a member of. */
  ghost predicate NotFound(env: Env, c: Central, id: Id, io: Io, reply: Reply) {
    && reply.Failed?
    && if reply.error == ConversationNotFound(id) then forall e :: !FindFails(env, c, id, io.readable, e)
       else FindFails(env, c, id, io.readable, reply.error)
  }

  lemma {:induction false} FindIs(env: Env, c: Central, id: Id, readable: bool)
    ensures var found := Access(env, c, readable, id).1;
      && ((found.Ok? && found.value.Some?) <==> Known(env, c, id, readable))
      && (forall e :: found == Err(e) <==> FindFails(env, c, id, readable, e))
      && found != Err(ConversationNotFound(id))
      && (Known(env, c, id, readable) || found == Ok(None) || FindFails(env, c, id, readable, found.error))
  {
    AccessStore(env, c, readable, id);
    hide Access;
  }

  lemma {:induction false} FindingAnswers(env: Env, c: Central, call: Call, id: Id, io: Io)
    requires call in {ConversationExists(id, io), WipeConversation(id, io)}
          || (call.Change? && call.id == id && call.io == io)
          || (call.NewConversation? && call.id == id && call.io == io)
          || (call.ProcessWelcome? && call.id == id && call.io == io)
    ensures Answered(env, c, call, Step(env, c, call).1)
  {
    FindIs(env, c, id, io.readable);
    KnownWhen(env, c, id, io.readable);
    hide Access, Known, FindFails, Lru.Insert, Lru.Remove, Lru.Write;
  }

  /** Every call is answered so. */
  lemma {:induction false} StepAnswers(env: Env, c: Central, call: Call)
    ensures Answered(env, c, call, Step(env, c, call).1)
  {
    match call
    case NewConversation(id, _, io) => FindingAnswers(env, c, call, id, io);
    case ProcessWelcome(id, _, io) => FindingAnswers(env, c, call, id, io);
    case ConversationExists(id, io) => FindingAnswers(env, c, call, id, io);
    case Change(id, _, io) => FindingAnswers(env, c, call, id, io);
    case WipeConversation(id, io) => FindingAnswers(env, c, call, id, io);
    case MergePendingGroup(id, end, io) => hide Lru.Insert;
    case GetAllConversations(_) => hide FetchAll;
    case RestoreFromDisk(_, _) => hide Restored;
    case JoinByExternalCommit(_, _, _) =>
    case ClearPendingGroup(_, _) =>
  }

  /** When each call that may fail works. */
  ghost predicate Works(env: Env, c: Central, call: Call) {
    match call
    case NewConversation(id, made, io) => made.Some? && io.writable && !Taken(env, c, id, io)
    case ProcessWelcome(id, made, io) => made.Some? && io.writable && !Taken(env, c, id, io)
    case Change(id, _, io) => Known(env, c, id, io.readable) && io.writable
    case WipeConversation(id, io) => Known(env, c, id, io.readable) && io.writable && Entry(c, id).group.Some?
    case JoinByExternalCommit(_, _, io) => io.writable
    case MergePendingGroup(id, end, io) => end.Completes? && MergePersists(env.mls, Entry(c, id), io)
    case ClearPendingGroup(id, io) => io.writable && Entry(c, id).pending.Some?
    case _ => false
  }

  lemma {:induction false} DoneWhen(env: Env, c: Central, call: Call)
    requires !call.RestoreFromDisk?
    ensures Step(env, c, call).1 == Done <==> Works(env, c, call)
  {
    StepAnswers(env, c, call);
    if call.GetAllConversations? {
      hide FetchAll;
    } else {
      hide Step, Known, FindFails;
    }
  }

  lemma {:induction false} ExistsWhen(env: Env, c: Central, id: Id, io: Io)
    ensures Step(env, c, ConversationExists(id, io)).1 == Exists(Known(env, c, id, io.readable))
  {
    StepAnswers(env, c, ConversationExists(id, io));
    hide Step, Known;
  }

  /** Fetching all fails, and changes nothing, exactly when the groups cannot be read, or one of them does not parse. */
  lemma {:induction false} GetAllFails(env: Env, c: Central, io: Io)
    ensures Step(env, c, GetAllConversations(io)) == (c, Failed(KeystoreError)) <==> !io.readable
    ensures Step(env, c, GetAllConversations(io)) == (c, Failed(MlsError)) <==>
      io.readable && !AllParse(env.mls, c.store.groups)
    ensures Step(env, c, GetAllConversations(io)).1.Failed? <==> !io.readable || !AllParse(env.mls, c.store.groups)
  {
    FetchAllParses(env.mls, c.store.groups.FindAll());
    RowsOnce(c.store.groups);
    forall row | row in c.store.groups.FindAll()
      ensures row == (row.0, row.1)
    {
    }
    assert AllParse(env.mls, c.store.groups) <==> FetchAll(env.mls, c.store.groups.FindAll()).Some? by {
      forall id | id in c.store.groups.rows
        ensures (id, c.store.groups.rows[id]) in c.store.groups.FindAll()
      {
      }
      hide FetchAll, Rows.FindAll;
    }
    hide FetchAll, Rows.FindAll, AllParse;
  }

  /** All stored active conversations are answered, each once and as stored, and nothing else is. */
  lemma {:induction false} GetAllAnswers(env: Env, c: Central, io: Io)
    requires io.readable && AllParse(env.mls, c.store.groups)
    ensures var reply := Step(env, c, GetAllConversations(io)).1;
      && reply.All?
      && (forall i, j :: 0 <= i < j < |reply.conversations| ==> reply.conversations[i].id != reply.conversations[j].id)
      && (forall conv :: conv in reply.conversations <==>
            ReadActive(env.mls, Entry(c, conv.id), true) == Some(conv.group))
  {
    var groups := c.store.groups;
    FetchAllIsEveryActiveOne(env.mls, groups);
    var items := FetchAll(env.mls, groups.FindAll()).value;
    var convs := Step(env, c, GetAllConversations(io)).1.conversations;
    assert convs == Seconds(items);
    hide FetchAll, Rows.FindAll, Step;
    forall i | 0 <= i < |items|
      ensures items[i] == (items[i].1.id, items[i].1) && items[i].0 == Firsts(items)[i]
    {
      assert (items[i].0, items[i].1) in items;
    }
    forall conv
      ensures conv in convs <==> ReadActive(env.mls, Entry(c, conv.id), true) == Some(conv.group)
    {
      assert ReadActive(env.mls, Entry(c, conv.id), true) == Some(conv.group) <==>
        StoredActive(env.mls, groups, conv.id) == Some(conv);
      if conv in convs {
        var i :| 0 <= i < |convs| && convs[i] == conv;
      }
      if (conv.id, conv) in items {
        var i :| 0 <= i < |items| && items[i] == (conv.id, conv);
        assert convs[i] == conv;
      }
    }
  }

  // ----- a wiped conversation -----

  /** Neither stored nor in memory. */
  ghost predicate Gone(c: Central, id: Id) {
    Entry(c, id).group.None? && id !in c.cache.entries
  }

  /** What brings a conversation (back): a creation or welcome that works, or a merge that gets to persisting it. */
  ghost predicate Brings(env: Env, c: Central, call: Call, id: Id) {
    match call
    case NewConversation(x, _, _) => x == id && Works(env, c, call)
    case ProcessWelcome(x, _, _) => x == id && Works(env, c, call)
    case MergePendingGroup(x, _, io) => x == id && MergePersists(env.mls, Entry(c, id), io)
    case _ => false
  }

  /** A wipe that works takes the row and the entry in memory away, and touches no other row. */
  lemma {:induction false} WipeDeletes(env: Env, c: Central, id: Id, io: Io)
    requires env.Lawful() && Keyed(env, c)
    requires Step(env, c, WipeConversation(id, io)).1 == Done
    ensures var c' := Step(env, c, WipeConversation(id, io)).0;
      && Gone(c', id)
      && c'.store.groups.rows == c.store.groups.rows - {id} && c'.store.pending == c.store.pending
  {
    var c' := Step(env, c, WipeConversation(id, io)).0;
    StepRecords(env, c, WipeConversation(id, io), id);
    WipeEntries(env, c, id, io, x => true);
    AccessStore(env, c, io.readable, id);
    hide Access;
    assert c'.store.groups.rows == c.store.groups.rows - {id};
  }

  lemma {:induction false} GoneUnknown(env: Env, c: Central, id: Id, readable: bool)
    requires Gone(c, id)
    ensures !Known(env, c, id, readable) && StoredActive(env.mls, c.store.groups, id).None?
  {
  }

  /** A conversation that is gone is back after a call exactly when the call brings it. */
  lemma {:induction false} StepGone(env: Env, c: Central, call: Call, id: Id)
    requires env.Lawful() && Keyed(env, c) && Gone(c, id)
    ensures Gone(Step(env, c, call).0, id) <==> !Brings(env, c, call, id)
  {
    GoneUnknown(env, c, id, true);
    StepRecords(env, c, call, id);
    assert Record(env.mls, Entry(c, id), id, call, Step(env, c, call).1).group.None? <==> !Brings(env, c, call, id) by {
      GoneUnknown(env, c, id, call.io.readable);
      if !call.RestoreFromDisk? {
        DoneWhen(env, c, call);
      }
      hide Step, Keyed, Gone, MergePersists, Known;
    }
    if !Brings(env, c, call, id) {
      GoneFromMemory(env, c, call, id);
    }
    hide Step;
  }

  /** Nothing that is neither stored before nor after comes into memory. */
  lemma {:induction false} GoneFromMemory(env: Env, c: Central, call: Call, id: Id)
    requires env.Lawful() && Keyed(env, c) && Gone(c, id)
    requires Entry(Step(env, c, call).0, id).group.None?
    ensures id !in Step(env, c, call).0.cache.entries
  {
    var good: Id -> bool := x => x != id;
    assert Entries(env.limiter, c.cache, good);
    assert StoredActive(env.mls, Step(env, c, call).0.store.groups, id).None?;
    if (call.NewConversation? || call.ProcessWelcome?) && Step(env, c, call).1 == Done {
      DoneWhen(env, c, call);
      StepRecords(env, c, call, id);
      assert good(call.id);
    }
    hide Step, Entries, StoredActive;
    forall x | StoredActive(env.mls, c.store.groups, x).Some?
      ensures good(x)
    {
      GoneUnknown(env, c, id, true);
    }
    CallEntries(env, c, call, good);
    EntriesGood(env.limiter, Step(env, c, call).0.cache, good, id);
  }

  lemma {:induction false} EntriesGood(
      limiter: HybridMemoryLimiter<Id>, cache: Lru<Id, Conversation>, good: Id -> bool, id: Id)
    requires Entries(limiter, cache, good) && !good(id)
    ensures id !in cache.entries
  {
  }

  /** No call of the run brings the conversation. */
  ghost predicate NoneBrings(env: Env, c: Central, calls: seq<Call>, id: Id)
    decreases |calls|
  {
    calls == [] || (!Brings(env, c, calls[0], id) && NoneBrings(env, Step(env, c, calls[0]).0, calls[1..], id))
  }

  lemma {:induction false} RunGone(env: Env, c: Central, calls: seq<Call>, id: Id)
    requires env.Lawful() && Keyed(env, c) && Gone(c, id) && NoneBrings(env, c, calls, id)
    ensures Keyed(env, After(env, c, calls)) && Gone(After(env, c, calls), id)
    decreases |calls|
  {
    if calls != [] {
      hide Step, Keyed, Gone, Brings;
      StepKeyed(env, c, calls[0]);
      StepGone(env, c, calls[0], id);
      RunGone(env, Step(env, c, calls[0]).0, calls[1..], id);
    }
  }

  /**
   A wiped conversation stays wiped: whatever is called, evicted or restored afterwards, until a
   creation or welcome of that id works or a merge of it persists a group, it does not exist, and it
   can be created again unless a group of that id is pending.
   */
  lemma {:induction false} WipedStaysWiped(
      env: Env, c: Central, io: Io, between: seq<Call>, id: Id, made: Option<Group>, io': Io)
    requires env.Lawful() && Keyed(env, c)
    requires Step(env, c, WipeConversation(id, io)).1 == Done
    requires NoneBrings(env, Step(env, c, WipeConversation(id, io)).0, between, id)
    ensures var c' := After(env, Step(env, c, WipeConversation(id, io)).0, between);
      && Step(env, c', ConversationExists(id, io')).1 == Exists(false)
      && (Step(env, c', NewConversation(id, made, io')).1 == Failed(ConversationAlreadyExists(id)) <==>
          io'.pendingReadable && Entry(c', id).pending.Some?)
      && (made.Some? && io'.writable && Entry(c', id).pending.None? ==>
            Step(env, c', NewConversation(id, made, io')).1 == Done)
  {
    var c1 := Step(env, c, WipeConversation(id, io)).0;
    WipeDeletes(env, c, id, io);
    StepKeyed(env, c, WipeConversation(id, io));
    RunGone(env, c1, between, id);
    var c' := After(env, c1, between);
    hide Step, After, Keyed, NoneBrings;
    ExistsWhen(env, c', id, io');
    GoneUnknown(env, c', id, io'.readable);
    CreationRefused(env, c', id, made, io');
    DoneWhen(env, c', NewConversation(id, made, io'));
  }

  // ----- memory and keystore -----

  /** The conversation in memory, if there is one, is the stored one. */
  ghost predicate Synced(env: Env, c: Central, id: Id) {
    id in c.cache.entries ==>
      && Entry(c, id).group.Some?
      && env.mls.parse(Entry(c, id).group.value) == Some(c.cache.entries[id].group)
  }

  /** The call may leave the conversation in memory and the stored one different. */
  predicate Unsettles(call: Call, id: Id) {
    (call.Change? && call.id == id && !call.io.writable)
    || (call.MergePendingGroup? && call.id == id && call.end.RestoreFails?)
  }

  /** The call leaves them the same, whatever they were before. */
  predicate Settles(call: Call, reply: Reply, id: Id) {
    || ((call.NewConversation? || call.ProcessWelcome? || call.Change? || call.WipeConversation?
         || call.MergePendingGroup?) && call.id == id && reply == Done)
    || (call.RestoreFromDisk? && reply == Done)
  }

  /** What a call puts into memory when it gets that far; a change gets that far even if it cannot be persisted. */
  function PutInMemory(env: Env, c: Central, call: Call): (group: Option<Group>)
  {
    match call
    case NewConversation(_, made, _) => made
    case ProcessWelcome(_, made, _) => made
    case Change(_, group, _) => Some(group)
    case MergePendingGroup(id, end, io) =>
      if MergePersists(env.mls, Entry(c, id), io) then Merged(env.mls, Entry(c, id).pending) else None
    case _ => None
  }

  predicate ReachesMemory(env: Env, c: Central, call: Call, reply: Reply) {
    match call
    case NewConversation(_, _, _) => reply == Done
    case ProcessWelcome(_, _, _) => reply == Done
    case Change(id, _, io) => Known(env, c, id, io.readable)
    case MergePendingGroup(id, end, io) => MergePersists(env.mls, Entry(c, id), io) && !end.RestoreFails?
    case _ => false
  }

  /** Then it is in memory under its id, however much was evicted for it. */
  lemma {:induction false} IsInMemory(env: Env, c: Central, call: Call)
    requires env.Lawful() && Keyed(env, c) && ReachesMemory(env, c, call, Step(env, c, call).1)
    ensures var c' := Step(env, c, call).0;
      && PutInMemory(env, c, call).Some?
      && call.id in c'.cache.entries
      && c'.cache.entries[call.id] == Conversation(call.id, PutInMemory(env, c, call).value)
  {
    match call
    case MergePendingGroup(id, _, _) =>
      var merged := Merged(env.mls, Entry(c, id).pending);
      InsertKeeps(env.limiter, c.cache, id, Conversation(id, merged.value));
      hide Lru.Insert;
    case Change(id, group, io) =>
      ChangedInMemory(env, c, id, group, io);
      hide ChangeOne;
    case NewConversation(id, made, io) =>
      AddedInMemory(env, c, id, made, io);
      hide Add;
    case ProcessWelcome(id, made, io) =>
      AddedInMemory(env, c, id, made, io);
      hide Add;
  }

  lemma {:induction false} AddedInMemory(env: Env, c: Central, id: Id, made: Option<Group>, io: Io)
    requires env.Lawful() && Keyed(env, c) && Add(env, c, id, made, io).1 == Done
    ensures made.Some?
    ensures var cache := Add(env, c, id, made, io).0.cache;
      id in cache.entries && cache.entries[id] == Conversation(id, made.value)
  {
    AccessEntries(env, c, io.readable, id, y => true);
    var c1 := Access(env, c, io.readable, id).0;
    hide Access, Lru.Insert;
    InsertKeeps(env.limiter, c1.cache, id, Conversation(id, made.value));
  }

  lemma {:induction false} ChangedInMemory(env: Env, c: Central, id: Id, group: Group, io: Io)
    requires env.Lawful() && Keyed(env, c) && Known(env, c, id, io.readable)
    ensures var cache := ChangeOne(env, c, id, group, io).0.cache;
      id in cache.entries && cache.entries[id] == Conversation(id, group)
  {
    AccessStore(env, c, io.readable, id);
    if id !in c.cache.entries {
      InsertKeeps(env.limiter, c.cache, id, Fetch(env.mls, c.store.groups, io.readable, id).value.value);
    }
    assert id in Access(env, c, io.readable, id).0.cache.entries by {
      hide Lru.Insert;
    }
    hide Access, Persist;
  }

  /** Under each id a read takes nothing into memory but what is stored there. */
  lemma {:induction false} AccessAt(env: Env, c: Central, readable: bool, x: Id, id: Id)
    requires env.limiter.len > 0 && Keyed(env, c)
    ensures var c1 := Access(env, c, readable, x).0;
      id in c1.cache.entries ==>
        || (id in c.cache.entries && c1.cache.entries[id] == c.cache.entries[id])
        || Synced(env, c1, id)
  {
    hide Lru.Insert;
    AccessStore(env, c, readable, x);
    if x !in c.cache.entries {
      var found := Fetch(env.mls, c.store.groups, readable, x);
      if found.Ok? && found.value.Some? {
        InsertKeeps(env.limiter, c.cache, x, found.value.value);
      }
    }
  }

  lemma {:induction false} AccessSyncs(env: Env, c: Central, readable: bool, x: Id, id: Id)
    requires env.limiter.len > 0 && Keyed(env, c)
    ensures Synced(env, c, id) ==> Synced(env, Access(env, c, readable, x).0, id)
  {
    AccessAt(env, c, readable, x, id);
    AccessStore(env, c, readable, x);
    hide Access;
  }

  lemma {:induction false} InsertSyncs(env: Env, c: Central, conv: Conversation, io: Io, id: Id)
    requires env.Lawful() && c.cache.Valid(env.limiter)
    ensures var (c', reply) := Insert(env, c, conv, io);
      Synced(env, c, id) || (conv.id == id && reply == Done) ==> Synced(env, c', id)
  {
    InsertKeeps(env.limiter, c.cache, conv.id, conv);
    assert env.mls.parse(env.mls.serialise(conv.group)) == Some(conv.group);
    hide Lru.Insert, Lru.Valid;
  }

  lemma {:induction false} WriteSyncs(env: Env, c: Central, conv: Conversation, writable: bool, id: Id)
    requires env.Lawful()
    ensures var c' := Central(c.cache.Write(conv.id, conv), Persist(env, c.store, conv, writable).0);
      (Synced(env, c, id) && (conv.id != id || writable)) || (conv.id == id && writable) ==> Synced(env, c', id)
  {
    assert env.mls.parse(env.mls.serialise(conv.group)) == Some(conv.group);
  }

  lemma {:induction false} AddSyncs(env: Env, c: Central, x: Id, made: Option<Group>, io: Io, id: Id)
    requires env.Lawful() && Keyed(env, c)
    ensures var (c', reply) := Add(env, c, x, made, io);
      Synced(env, c, id) || (x == id && reply == Done) ==> Synced(env, c', id)
  {
    AccessSyncs(env, c, io.readable, x, id);
    AccessEntries(env, c, io.readable, x, y => true);
    var c1 := Access(env, c, io.readable, x).0;
    assert c1.cache.Valid(env.limiter);
    hide Access, Conversations.Insert, Synced, Keyed, Entries;
    if made.Some? {
      InsertSyncs(env, c1, Conversation(x, made.value), io, id);
    }
  }

  lemma {:induction false} ChangeSyncs(env: Env, c: Central, x: Id, group: Group, io: Io, id: Id)
    requires env.Lawful() && Keyed(env, c)
    ensures var (c', reply) := ChangeOne(env, c, x, group, io);
      (Synced(env, c, id) && !(x == id && !io.writable)) || (x == id && reply == Done) ==> Synced(env, c', id)
  {
    AccessSyncs(env, c, io.readable, x, id);
    AccessStore(env, c, io.readable, x);
    var (c1, found) := Access(env, c, io.readable, x);
    assert found.Ok? && found.value.Some? ==> found.value.value.id == x;
    WriteSyncs(env, c1, Conversation(x, group), io.writable, id);
    assert !io.writable ==> ChangeOne(env, c, x, group, io).1 != Done;
    hide Access, Synced, Keyed, Persist, Lru.Write;
  }

  lemma {:induction false} WipeSyncs(env: Env, c: Central, x: Id, io: Io, id: Id)
    requires env.Lawful() && Keyed(env, c)
    ensures var (c', reply) := Wipe(env, c, x, io);
      Synced(env, c, id) || (x == id && reply == Done) ==> Synced(env, c', id)
  {
    AccessSyncs(env, c, io.readable, x, id);
    hide Access;
  }

  lemma {:induction false} MergeSyncs(env: Env, c: Central, x: Id, end: MergeEnd, io: Io, id: Id)
    requires env.Lawful() && Keyed(env, c)
    ensures var (c', reply) := Merge(env, c, x, end, io);
      (Synced(env, c, id) && !(x == id && end.RestoreFails?)) || (x == id && reply == Done) ==> Synced(env, c', id)
  {
    var merged := Merged(env.mls, Entry(c, x).pending);
    hide Lru.Insert;
    if merged.Some? {
      InsertKeeps(env.limiter, c.cache, x, Conversation(x, merged.value));
      assert env.mls.parse(env.mls.serialise(merged.value)) == merged;
    }
  }

  lemma {:induction false} GetAllSyncs(env: Env, c: Central, io: Io, id: Id)
    requires env.Lawful() && Keyed(env, c)
    ensures Synced(env, c, id) ==> Synced(env, GetAll(env, c, io).0, id)
  {
    var rows := c.store.groups.FindAll();
    var items := FetchAll(env.mls, rows);
    if items.Some? {
      RowsOnce(c.store.groups);
      FetchAllOnce(env.mls, rows);
      InsertAllFinds(env.limiter, c.cache, items.value, id);
      if id in Firsts(items.value) {
        var i :| 0 <= i < |items.value| && Firsts(items.value)[i] == id;
        var conv := items.value[i].1;
        assert items.value[i] == (id, conv) && items.value[i] in items.value;
        FetchAllContains(env.mls, rows, id, conv);
        assert StoredActive(env.mls, c.store.groups, id) == Some(conv);
      }
      hide FetchAll, Rows.FindAll, Lru.InsertAll;
    }
  }

  function Ids(convs: seq<Conversation>): (ids: seq<Id>)
    ensures |ids| == |convs| && forall i :: 0 <= i < |ids| ==> ids[i] == convs[i].id
  {
    seq(|convs|, i requires 0 <= i < |convs| => convs[i].id)
  }

  /**
   Fetching all of them takes them into memory as stored, in place of whatever was there; with the length
   limit alone the answered ids, the last one newest, come before the others.
   */
  lemma {:induction false} GetAllTakesIn(env: Env, c: Central, io: Io, id: Id)
    requires env.Lawful() && Keyed(env, c) && io.readable && AllParse(env.mls, c.store.groups)
    ensures var (c', reply) := Step(env, c, GetAllConversations(io));
      && reply.All?
      && (id in c'.cache.entries ==>
            var active := StoredActive(env.mls, c.store.groups, id);
            if active.Some? then c'.cache.entries[id] == active.value
            else id in c.cache.entries && c'.cache.entries[id] == c.cache.entries[id])
      && (env.limiter.LengthOnly() ==>
            c'.cache.order == Cut(InFront(Ids(reply.conversations), c.cache.order), env.limiter.len))
  {
    FetchAllIsEveryActiveOne(env.mls, c.store.groups);
    var items := FetchAll(env.mls, c.store.groups.FindAll()).value;
    InsertAllFinds(env.limiter, c.cache, items, id);
    assert Step(env, c, GetAllConversations(io)) ==
      (c.(cache := c.cache.InsertAll(env.limiter, items)), All(Seconds(items)));
    hide FetchAll, Rows.FindAll, Lru.InsertAll, Step, StoredActive, InFront;
    var active := StoredActive(env.mls, c.store.groups, id);
    if active.Some? {
      assert (id, active.value) in items;
      var i :| 0 <= i < |items| && items[i] == (id, active.value);
    } else if id in Firsts(items) {
      var i :| 0 <= i < |items| && Firsts(items)[i] == id;
      assert (id, items[i].1) in items;
    }
    IdsAreFirsts(env, c, items);
    if env.limiter.LengthOnly() {
      FetchAllOrder(env.limiter, c.cache, items);
    }
  }

  lemma {:induction false} IdsAreFirsts(env: Env, c: Central, items: seq<(Id, Conversation)>)
    requires FetchAll(env.mls, c.store.groups.FindAll()) == Some(items)
    ensures Ids(Seconds(items)) == Firsts(items)
  {
    forall i | 0 <= i < |items|
      ensures items[i].1.id == items[i].0
    {
      FetchedIds(env.mls, c.store.groups.FindAll(), items[i]);
    }
  }

  /** What is restored is read from the rows. */
  lemma {:induction false} RestoredAt(env: Env, rows: seq<(Id, Raw)>, cache: Lru<Id, Conversation>, id: Id)
    requires cache.Valid(env.limiter)
    ensures var r := Restored(env, rows, cache);
      r.Ok? && id in r.value.entries ==>
        || (id in cache.entries && r.value.entries[id] == cache.entries[id])
        || exists raw :: (id, raw) in rows && env.mls.parse(raw) == Some(r.value.entries[id].group)
    decreases |rows|
  {
    if rows != [] && env.mls.parse(rows[0].1).Some? {
      var conv := Conversation(rows[0].0, env.mls.parse(rows[0].1).value);
      var inserted := cache.TryInsert(env.limiter, rows[0].0, conv);
      if inserted.Some? {
        TryInsertValid(env.limiter, cache, rows[0].0, conv);
        assert rows == [rows[0]] + rows[1..] && rows[0] == (rows[0].0, rows[0].1);
        RestoredAt(env, rows[1..], inserted.value, id);
        hide Lru.TryInsert;
      }
    }
  }

  lemma {:induction false} RestoreSyncs(env: Env, c: Central, pkiRestored: bool, io: Io, id: Id)
    requires env.Lawful() && Keyed(env, c)
    ensures var (c', reply) := Restore(env, c, pkiRestored, io);
      Synced(env, c, id) || reply == Done ==> Synced(env, c', id)
  {
    var rows := env.listing(c.store.groups.FindAll());
    RowsOnce(c.store.groups);
    RestoredAt(env, rows, Lru([], map[], c.cache.clock), id);
    assert forall row :: row in rows ==> row in c.store.groups.FindAll();
    hide Restored, Rows.FindAll;
  }

  lemma {:induction false} StepSyncs(env: Env, c: Central, call: Call, id: Id)
    requires env.Lawful() && Keyed(env, c)
    ensures var (c', reply) := Step(env, c, call);
      (Synced(env, c, id) && !Unsettles(call, id)) || Settles(call, reply, id) ==> Synced(env, c', id)
  {
    hide Add, ChangeOne, Wipe, Merge, GetAll, Restore, Keyed, Access;
    match call
    case NewConversation(x, made, io) => AddSyncs(env, c, x, made, io, id);
    case ProcessWelcome(x, made, io) => AddSyncs(env, c, x, made, io, id);
    case ConversationExists(x, io) =>
      AccessAt(env, c, io.readable, x, id);
      AccessStore(env, c, io.readable, x);
    case Change(x, group, io) => ChangeSyncs(env, c, x, group, io, id);
    case WipeConversation(x, io) => WipeSyncs(env, c, x, io, id);
    case MergePendingGroup(x, end, io) => MergeSyncs(env, c, x, end, io, id);
    case GetAllConversations(io) => GetAllSyncs(env, c, io, id);
    case RestoreFromDisk(pkiRestored, io) => RestoreSyncs(env, c, pkiRestored, io, id);
    case JoinByExternalCommit(_, _, _) =>
    case ClearPendingGroup(_, _) =>
  }

  /**
   After a change, creation, welcome, merge, wipe or restore that works, the conversation in memory is
   the stored one, and stays so in every run without a change whose write fails or a merge that stops
   before the group is in memory.
   */
  lemma {:induction false} SettledIsStored(env: Env, c: Central, call: Call, calls: seq<Call>, id: Id)
    requires env.Lawful() && Keyed(env, c)
    requires (Synced(env, c, id) && !Unsettles(call, id)) || Settles(call, Step(env, c, call).1, id)
    requires forall i :: 0 <= i < |calls| ==> !Unsettles(calls[i], id)
    ensures Synced(env, After(env, Step(env, c, call).0, calls), id)
    decreases |calls|
  {
    StepSyncs(env, c, call, id);
    StepKeyed(env, c, call);
    if calls != [] {
      hide Step, Keyed, Synced, Settles;
      SettledIsStored(env, Step(env, c, call).0, calls[0], calls[1..], id);
    }
  }
}

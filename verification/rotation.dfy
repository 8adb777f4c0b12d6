/**
 Rotating the credential of a client (crypto/src/e2e_identity/rotate.rs): a commit in every
 conversation, the references of the key packages that are now deprecated, and new key packages.
 */
module Rotation {
  import opened Wrappers
  import opened Sequences
  import opened Tables
  import G = GroupStores
  import C = Conversations
  import Centrals = MlsCentrals
  import opened ConversationLaws

  type Ref(==, !new)
  type Raw(==, !new)
  type KeyPackage(==, !new)
  type Chain(==, !new)
  type Commit(==, !new)

  datatype MlsCredential = Basic | X509(chain: Chain)

  datatype Packages = Packages(
    decode: Raw -> Option<KeyPackage>,
    credential: KeyPackage -> MlsCredential,
    hashRef: KeyPackage -> Option<Ref>
  )

  datatype Error = ImplementationError | MlsError

  const U32_LIMIT: nat := 0x1_0000_0000

  // ----- key packages -----

  function DecodeAll(x: Packages, raws: seq<Raw>): (kps: seq<KeyPackage>)
  {
    if raws == [] then []
    else (if x.decode(raws[0]).Some? then [x.decode(raws[0]).value] else []) + DecodeAll(x, raws[1..])
  }

  /** The references of the newest `count` rows, newest first. */
  function Newest(table: Table<Ref, Raw>, count: nat): (refs: seq<Ref>)
    ensures forall ref :: ref in refs ==> ref in table.rows
    ensures |refs| == if count < |table.order| then count else |table.order|
    ensures forall i :: 0 <= i < |refs| ==> refs[i] == table.order[|table.order| - 1 - i]
  {
    var refs := Cut(Reverse(table.order), count);
    ReverseElements(table.order);
    assert forall ref :: ref in refs ==> ref in Elements(table.order);
    refs
  }

  function RawsOf(table: Table<Ref, Raw>, refs: seq<Ref>): (raws: seq<Raw>)
    requires forall ref :: ref in refs ==> ref in table.rows
    ensures |raws| == |refs|
  {
    if refs == [] then [] else [table.rows[refs[0]]] + RawsOf(table, refs[1..])
  }

  /** `mls_fetch_keypackages`; those that do not decode are left out. */
  function Fetched(x: Packages, table: Table<Ref, Raw>, count: nat): (kps: seq<KeyPackage>)
  {
    DecodeAll(x, RawsOf(table, Newest(table, count)))
  }

  /** Whether a key package carries another credential than the local one. */
  predicate Deprecated(credential: MlsCredential, local: MlsCredential) {
    credential.Basic? || credential != local
  }

  function Scan(x: Packages, kps: seq<KeyPackage>, local: MlsCredential): (r: Result<seq<Ref>, Error>)
  {
    if kps == [] then Ok([])
    else if local.Basic? then Err(ImplementationError)
    else if !Deprecated(x.credential(kps[0]), local) then Scan(x, kps[1..], local)
    else if x.hashRef(kps[0]).None? then Err(MlsError)
    else
      Prepend([x.hashRef(kps[0]).value], Scan(x, kps[1..], local))
  }

  /** The number of rows is cut to 32 bits before it serves as the limit of the query. */
  function ToRemove(x: Packages, table: Table<Ref, Raw>, local: MlsCredential): (r: Result<seq<Ref>, Error>)
  {
    Scan(x, Fetched(x, table, |table.order| % U32_LIMIT), local)
  }

  method MlsFetchKeypackages(x: Packages, table: Table<Ref, Raw>, count: nat) returns (kps: seq<KeyPackage>)
    ensures kps == Fetched(x, table, count)
  {
    var refs := Newest(table, count);
    ghost var all := DecodeAll(x, RawsOf(table, refs));
    kps := [];
    var i := 0;
    assert refs[0..] == refs && [] + all == all;
    while i < |refs|
      invariant 0 <= i <= |refs|
      invariant all == kps + DecodeAll(x, RawsOf(table, refs[i..]))
    {
      hide DecodeAll, RawsOf;
      assert refs[i..][1..] == refs[i + 1..];
      var kp := x.decode(table.rows[refs[i]]);
      ghost var rest := DecodeAll(x, RawsOf(table, refs[i + 1..]));
      DecodeOneMore(x, table, refs[i..]);
      if kp.Some? {
        Regroup(kps, [kp.value], rest);
        kps := kps + [kp.value];
      } else {
        assert [] + rest == rest;
      }
      i := i + 1;
    }
    assert refs[i..] == [] && all == kps + [];
  }

  lemma {:induction false} DecodeOneMore(x: Packages, table: Table<Ref, Raw>, refs: seq<Ref>)
    requires refs != [] && forall ref :: ref in refs ==> ref in table.rows
    ensures var kp := x.decode(table.rows[refs[0]]);
      DecodeAll(x, RawsOf(table, refs)) ==
        (if kp.Some? then [kp.value] else []) + DecodeAll(x, RawsOf(table, refs[1..]))
  {
    assert RawsOf(table, refs)[1..] == RawsOf(table, refs[1..]);
  }

  method FindKeyPackagesToRemove(
      x: Packages, table: Table<Ref, Raw>, local: MlsCredential) returns (r: Result<seq<Ref>, Error>)
    ensures r == ToRemove(x, table, local)
  {
    hide Prepend, Deprecated, Fetched;
    var kps := MlsFetchKeypackages(x, table, |table.order| % U32_LIMIT);
    var refs: seq<Ref> := [];
    ghost var whole := Scan(x, kps, local);
    PrependEnds([], whole);
    assert kps[0..] == kps;
    var i := 0;
    while i < |kps|
      invariant 0 <= i <= |kps|
      invariant whole == Prepend(refs, Scan(x, kps[i..], local))
    {
      var kp := kps[i];
      assert kps[i..][1..] == kps[i + 1..];
      PrependEnds(refs, Scan(x, kps[i..], local));
      if local.Basic? { return Err(ImplementationError); }
      if Deprecated(x.credential(kp), local) {
        var ref := x.hashRef(kp);
        if ref.None? { return Err(MlsError); }
        PrependTwice(refs, [ref.value], Scan(x, kps[i + 1..], local));
        refs := refs + [ref.value];
      }
      i := i + 1;
    }
    assert kps[i..] == [];
    PrependEnds(refs, whole);
    r := Ok(refs);
  }

  /** Key packages are stored under their own references. */
  ghost predicate Honest(x: Packages, table: Table<Ref, Raw>) {
    forall ref :: ref in table.rows && x.decode(table.rows[ref]).Some? ==>
      x.hashRef(x.decode(table.rows[ref]).value) == Some(ref)
  }

  ghost predicate DeprecatedRow(x: Packages, raw: Raw, local: MlsCredential) {
    x.decode(raw).Some? && Deprecated(x.credential(x.decode(raw).value), local)
  }

  lemma {:induction false} ScanFinds(x: Packages, table: Table<Ref, Raw>, refs: seq<Ref>, local: MlsCredential)
    requires Honest(x, table) && local.X509? && forall ref :: ref in refs ==> ref in table.rows
    ensures var r := Scan(x, DecodeAll(x, RawsOf(table, refs)), local);
      r.Ok? && forall ref :: ref in r.value <==> ref in refs && DeprecatedRow(x, table.rows[ref], local)
  {
    if refs != [] {
      var (first, rest) := (refs[0], refs[1..]);
      assert refs == [first] + rest;
      ScanFinds(x, table, rest, local);
      DecodeOneMore(x, table, refs);
      var kp := x.decode(table.rows[first]);
      var kps := DecodeAll(x, RawsOf(table, rest));
      if kp.Some? {
        assert ([kp.value] + kps)[1..] == kps;
        assert x.hashRef(kp.value) == Some(first);
      } else {
        assert [] + kps == kps;
      }
      hide RawsOf, DecodeAll, Deprecated;
    }
  }

  /**
   Without a local certificate it fails as soon as there is a package to compare with; with one, exactly
   when there is no reference for a deprecated package among those read.
   */
  lemma {:induction false} ScanFails(x: Packages, kps: seq<KeyPackage>, local: MlsCredential)
    ensures Scan(x, kps, local) == Err(ImplementationError) <==> local.Basic? && kps != []
    ensures Scan(x, kps, local) == Err(MlsError) <==>
      local.X509? && exists kp :: kp in kps && x.credential(kp) != local && x.hashRef(kp).None?
  {
    if kps != [] {
      assert kps == [kps[0]] + kps[1..];
      ScanFails(x, kps[1..], local);
      hide Prepend;
      if local.X509? {
        PrependEnds([], Scan(x, kps[1..], local));
        assert Scan(x, kps[1..], local).Err? ==>
          x.hashRef(kps[0]).Some? ==>
          Prepend([x.hashRef(kps[0]).value], Scan(x, kps[1..], local)) == Scan(x, kps[1..], local) by {
          if x.hashRef(kps[0]).Some? {
            PrependEnds([x.hashRef(kps[0]).value], Scan(x, kps[1..], local));
          }
        }
        assert Scan(x, kps[1..], local).Ok? && x.hashRef(kps[0]).Some? ==>
          Prepend([x.hashRef(kps[0]).value], Scan(x, kps[1..], local)).Ok? by {
          PrependIsOk(x, kps, local);
        }
      }
    }
  }

  lemma {:induction false} PrependIsOk(x: Packages, kps: seq<KeyPackage>, local: MlsCredential)
    requires kps != []
    ensures Scan(x, kps[1..], local).Ok? && x.hashRef(kps[0]).Some? ==>
      Prepend([x.hashRef(kps[0]).value], Scan(x, kps[1..], local)).Ok?
  {
  }

  /**
   The references returned are those of the deprecated packages among the rows that were read: the
   newest ones, as many as the number of rows has in its lower 32 bits.
   */
  lemma {:induction false} ToRemoveIs(x: Packages, table: Table<Ref, Raw>, local: MlsCredential)
    requires Honest(x, table) && local.X509?
    ensures var r := ToRemove(x, table, local);
      r.Ok? && forall ref :: ref in r.value <==>
        ref in Newest(table, |table.order| % U32_LIMIT) && DeprecatedRow(x, table.rows[ref], local)
  {
    hide Newest;
    ScanFinds(x, table, Newest(table, |table.order| % U32_LIMIT), local);
  }

  /** Fewer than 2^32 rows are all read. */
  lemma {:induction false} AllAreRead(table: Table<Ref, Raw>)
    requires |table.order| < U32_LIMIT
    ensures forall ref :: ref in Newest(table, |table.order| % U32_LIMIT) <==> ref in table.rows
  {
    ReverseElements(table.order);
    assert Cut(Reverse(table.order), |table.order|) == Reverse(table.order);
    assert forall ref :: ref in table.order <==> ref in Elements(table.order);
  }

  /** Exactly 2^32 rows are as good as none. */
  lemma {:induction false} NoneIsRead(x: Packages, table: Table<Ref, Raw>, local: MlsCredential)
    requires |table.order| % U32_LIMIT == 0
    ensures ToRemove(x, table, local) == Ok([])
  {
    assert Newest(table, 0) == [];
    assert RawsOf(table, []) == [];
  }

  /** `generate_new_keypackages`: each one is saved under its reference. */
  function Generate(table: Table<Ref, Raw>, added: seq<(Ref, Raw)>): (r: Table<Ref, Raw>)
    decreases |added|
  {
    if added == [] then table else Generate(table.Upsert(added[0].0, added[0].1), added[1..])
  }

  function DeleteAll(table: Table<Ref, Raw>, refs: seq<Ref>): (r: Table<Ref, Raw>)
    ensures r.rows == table.rows - Elements(refs)
    decreases |refs|
  {
    if refs == [] then table
    else
      assert Elements(refs) == {refs[0]} + Elements(refs[1..]);
      DeleteAll(table.Delete(refs[0]), refs[1..])
  }

  lemma {:induction false} GenerateAdds(table: Table<Ref, Raw>, added: seq<(Ref, Raw)>, ref: Ref)
    requires NoDup(Firsts(added))
    ensures ref !in Firsts(added) ==> Find(Generate(table, added), ref) == Find(table, ref)
    ensures forall i :: 0 <= i < |added| && added[i].0 == ref ==> Find(Generate(table, added), ref) == Some(added[i].1)
    decreases |added|
  {
    if added != [] {
      var (first, rest) := (added[0], added[1..]);
      assert Firsts(rest) == Firsts(added)[1..];
      assert Firsts(added) == [first.0] + Firsts(rest);
      GenerateAdds(table.Upsert(first.0, first.1), rest, ref);
      assert first.0 !in Firsts(rest);
      forall i | 0 <= i < |added| && added[i].0 == ref
        ensures Find(Generate(table, added), ref) == Some(added[i].1)
      {
        if i > 0 {
          assert rest[i - 1] == added[i];
        }
      }
    }
  }

  function Find(table: Table<Ref, Raw>, ref: Ref): (raw: Option<Raw>)
  {
    table.Find(ref)
  }

  ghost predicate Carries(x: Packages, raw: Raw, chain: Chain) {
    x.decode(raw).Some? && x.credential(x.decode(raw).value) == X509(chain)
  }

  /** The new packages carry the new certificate, and their references are new. */
  ghost predicate AreNew(x: Packages, table: Table<Ref, Raw>, added: seq<(Ref, Raw)>, chain: Chain) {
    && NoDup(Firsts(added))
    && forall i :: 0 <= i < |added| ==> added[i].0 !in table.rows && Carries(x, added[i].1, chain)
  }

  /** What is stored once the new packages are generated and the returned references deleted. */
  function Rotated(x: Packages, table: Table<Ref, Raw>, added: seq<(Ref, Raw)>, chain: Chain): (r: Table<Ref, Raw>)
  {
    var refs := ToRemove(x, table, X509(chain));
    DeleteAll(Generate(table, added), if refs.Ok? then refs.value else [])
  }

  ghost predicate ReadAndDeprecated(x: Packages, table: Table<Ref, Raw>, ref: Ref, local: MlsCredential) {
    ref in Newest(table, |table.order| % U32_LIMIT) && DeprecatedRow(x, table.rows[ref], local)
  }

  /** Row by row: the new packages are there, and of the others those that were not read or not deprecated. */
  lemma {:induction false} RotatedRow(
      x: Packages, table: Table<Ref, Raw>, added: seq<(Ref, Raw)>, chain: Chain, ref: Ref)
    requires Honest(x, table) && AreNew(x, table, added, chain)
    ensures var r := Rotated(x, table, added, chain);
      && (ref in Firsts(added) ==> ref in r.rows && Carries(x, r.rows[ref], chain))
      && (ref !in Firsts(added) ==>
            && (ref in r.rows <==> (ref in table.rows && !ReadAndDeprecated(x, table, ref, X509(chain))))
            && (ref in r.rows ==> r.rows[ref] == table.rows[ref]))
  {
    hide Newest, ToRemove, Generate, DeprecatedRow, Carries;
    ToRemoveIs(x, table, X509(chain));
    GenerateAdds(table, added, ref);
    if ref in Firsts(added) {
      var i :| 0 <= i < |added| && added[i].0 == ref;
    }
  }

  /**
   With fewer than 2^32 packages, all of them readable, exactly those with the new certificate are
   left, and all the new ones are among them.
   */
  lemma {:induction false} RotationPartitions(
      x: Packages, table: Table<Ref, Raw>, added: seq<(Ref, Raw)>, chain: Chain, ref: Ref)
    requires Honest(x, table) && AreNew(x, table, added, chain) && |table.order| < U32_LIMIT
    requires forall r :: r in table.rows ==> x.decode(table.rows[r]).Some?
    ensures ref in Rotated(x, table, added, chain).rows <==>
      ref in Generate(table, added).rows && Carries(x, Generate(table, added).rows[ref], chain)
    ensures ref in Firsts(added) ==> ref in Rotated(x, table, added, chain).rows
  {
    RotatedRow(x, table, added, chain, ref);
    AllAreRead(table);
    GenerateAdds(table, added, ref);
    hide Newest, Generate, Rotated;
    if ref in Firsts(added) {
      var i :| 0 <= i < |added| && added[i].0 == ref;
    }
  }

  /** In general no deprecated package is left exactly when all of them were among the rows read. */
  lemma {:induction false} RotationCompleteWhen(
      x: Packages, table: Table<Ref, Raw>, added: seq<(Ref, Raw)>, chain: Chain)
    requires Honest(x, table) && AreNew(x, table, added, chain)
    ensures (forall ref :: ref in Rotated(x, table, added, chain).rows ==>
               !DeprecatedRow(x, Rotated(x, table, added, chain).rows[ref], X509(chain))) <==>
            (forall ref :: ref in table.rows && DeprecatedRow(x, table.rows[ref], X509(chain)) ==>
               ref in Newest(table, |table.order| % U32_LIMIT))
  {
    var end := Rotated(x, table, added, chain);
    forall ref
      ensures ref in end.rows && DeprecatedRow(x, end.rows[ref], X509(chain)) <==>
        && ref in table.rows && DeprecatedRow(x, table.rows[ref], X509(chain))
        && ref !in Newest(table, |table.order| % U32_LIMIT)
    {
      RotatedRow(x, table, added, chain, ref);
      NewIsNotDeprecated(x, table, added, chain, ref);
    }
    hide Rotated, Newest, DeprecatedRow;
  }

  lemma {:induction false} NewIsNotDeprecated(
      x: Packages, table: Table<Ref, Raw>, added: seq<(Ref, Raw)>, chain: Chain, ref: Ref)
    requires AreNew(x, table, added, chain)
    ensures ref in Firsts(added) ==> ref !in table.rows
    ensures forall raw :: Carries(x, raw, chain) ==> !DeprecatedRow(x, raw, X509(chain))
  {
  }

  // ----- commits -----

  /** A commit of one group: the group afterwards, and the commit to be sent. */
  type Rotate = C.Group -> Option<(C.Group, Commit)>

  /** The commit of one conversation: memory changes, and then the group is persisted. */
  function CommitOne(env: C.Env, rotate: Rotate, writable: C.Id -> bool, c: C.Central, conv: C.Conversation)
    : (r: (C.Central, Result<Commit, C.Error>))
  {
    match rotate(conv.group)
    case None => (c, Err(C.MlsError))
    case Some((group, commit)) =>
      var changed := conv.(group := group);
      var (store, ok) := C.Persist(env, c.store, changed, writable(conv.id));
      (C.Central(c.cache.Write(conv.id, changed), store), if ok then Ok(commit) else Err(C.KeystoreError))
  }

  /** A commit per conversation; the first failure ends it. */
  function CommitAll(
    env: C.Env, rotate: Rotate, writable: C.Id -> bool, c: C.Central, convs: seq<C.Conversation>,
    acc: map<C.Id, Commit>)
    : (r: (C.Central, Result<map<C.Id, Commit>, C.Error>))
    decreases |convs|
  {
    if convs == [] then (c, Ok(acc))
    else
      match CommitOne(env, rotate, writable, c, convs[0])
      case (c', Err(e)) => (c', Err(e))
      case (c', Ok(commit)) => CommitAll(env, rotate, writable, c', convs[1..], acc[convs[0].id := commit])
  }

  lemma {:induction false} CommitNext(
      env: C.Env, rotate: Rotate, writable: C.Id -> bool, c: C.Central, convs: seq<C.Conversation>, i: nat,
      acc: map<C.Id, Commit>)
    requires i < |convs|
    ensures var (c', commit) := CommitOne(env, rotate, writable, c, convs[i]);
      CommitAll(env, rotate, writable, c, convs[i..], acc) ==
        if commit.Err? then (c', Err(commit.error))
        else CommitAll(env, rotate, writable, c', convs[i + 1..], acc[convs[i].id := commit.value])
  {
    hide CommitOne;
    assert convs[i..][1..] == convs[i + 1..];
  }

  /** Rotates one conversation, through its handle; the handles after it are as they were. */
  method E2eiRotate(
      central: Centrals.MlsCentral, rotate: Rotate, writable: C.Id -> bool, handles: seq<Centrals.Handle>,
      ghost convs: seq<C.Conversation>, i: nat)
    returns (r: Result<Commit, C.Error>)
    requires i < |handles| == |convs| && central.Valid() && central.Holds(handles[i..], convs[i..])
    modifies handles[i], central.keystore
    ensures central.Valid() && central.Holds(handles[i + 1..], convs[i + 1..]) && handles[i].value.id == convs[i].id
    ensures (central.View(), r) == CommitOne(central.env, rotate, writable, old(central.View()), convs[i])
  {
    hide C.Persist, G.Lru.Write, G.GroupStore.View, G.Deref;
    assert handles[i] == handles[i..][0] && convs[i] == convs[i..][0];
    assert handles[i..][1..] == handles[i + 1..] && convs[i..][1..] == convs[i + 1..];
    var handle := handles[i];
    var rotated := rotate(handle.value.group);
    if rotated.None? { return Err(C.MlsError); }
    var (id, io) := (handle.value.id, C.Io(true, true, writable(handle.value.id)));
    var reply := central.ChangeAndPersist(id, handle, rotated.value.0, io);
    r := if reply.Done? then Ok(rotated.value.1) else Err(C.KeystoreError);
  }

  method RotateEach(
      central: Centrals.MlsCentral, rotate: Rotate, writable: C.Id -> bool, handles: seq<Centrals.Handle>,
      ghost convs: seq<C.Conversation>)
    returns (r: Result<map<C.Id, Commit>, C.Error>)
    requires central.Valid() && central.Holds(handles, convs)
    modifies handles, central.keystore
    ensures central.Valid()
    ensures (central.View(), r) == CommitAll(central.env, rotate, writable, old(central.View()), convs, map[])
  {
    assert |handles| == |convs| && convs[0..] == convs && handles[0..] == handles;
    ghost var whole := CommitAll(central.env, rotate, writable, central.View(), convs, map[]);
    var commits: map<C.Id, Commit> := map[];
    var i := 0;
    while i < |handles|
      invariant 0 <= i <= |handles| == |convs|
      invariant central.Valid() && central.Holds(handles[i..], convs[i..])
      invariant CommitAll(central.env, rotate, writable, central.View(), convs[i..], commits) == whole
    {
      hide *;
      CommitNext(central.env, rotate, writable, central.View(), convs, i, commits);
      var commit := E2eiRotate(central, rotate, writable, handles, convs, i);
      if commit.Err? { return Err(commit.error); }
      commits := commits[handles[i].value.id := commit.value];
      i := i + 1;
    }
    assert convs[i..] == [];
    r := Ok(commits);
  }

  /** `e2ei_update_all`: the conversations are changed through their handles, one after the other. */
  method E2eiUpdateAll(central: Centrals.MlsCentral, rotate: Rotate, writable: C.Id -> bool, io: C.Io)
    returns (r: Result<map<C.Id, Commit>, C.Error>)
    requires central.Valid()
    modifies central.Repr()
    ensures central.Valid()
    ensures match C.GetAll(central.env, old(central.View()), io)
            case (fetched, All(convs)) =>
              (central.View(), r) == CommitAll(central.env, rotate, writable, fetched, convs, map[])
            case (same, reply) => central.View() == same && reply.Failed? && r == Err(reply.error)
  {
    hide C.GetAll, G.GroupStore.View, G.Deref, Centrals.MlsCentral.Holds, CommitAll;
    ghost var all := C.GetAll(central.env, central.View(), io);
    var handles := central.GetAllConversations(io);
    if handles.Err? { return Err(handles.error); }
    r := RotateEach(central, rotate, writable, handles.value, all.1.conversations);
  }

  /** The commit for a conversation, and the conversation once it is made. */
  function CommitOf(rotate: Rotate, conv: C.Conversation): (r: Option<(C.Conversation, Commit)>)
  {
    match rotate(conv.group)
    case None => None
    case Some((group, commit)) => Some((conv.(group := group), commit))
  }

  /** Stored in its new form, and in that form in memory, if it is there. */
  ghost predicate Settled(env: C.Env, c: C.Central, conv: C.Conversation) {
    && conv.id in c.store.groups.rows && c.store.groups.rows[conv.id] == env.mls.serialise(conv.group)
    && (conv.id in c.cache.entries ==> c.cache.entries[conv.id] == conv)
  }

  /** Neither the row nor what is in memory under this id differs. */
  ghost predicate SameUnder(c: C.Central, c': C.Central, id: C.Id) {
    && (id in c.store.groups.rows <==> id in c'.store.groups.rows)
    && (id in c.store.groups.rows ==> c.store.groups.rows[id] == c'.store.groups.rows[id])
    && (id in c.cache.entries <==> id in c'.cache.entries)
    && (id in c.cache.entries ==> c.cache.entries[id] == c'.cache.entries[id])
  }

  lemma {:induction false} WrittenIs(env: C.Env, c: C.Central, conv: C.Conversation, id: C.Id)
    ensures var c' := C.Central(c.cache.Write(conv.id, conv), C.Persist(env, c.store, conv, true).0);
      Settled(env, c', conv) && (id != conv.id ==> SameUnder(c, c', id))
  {
    var groups := C.Persist(env, c.store, conv, true).0.groups;
    assert groups.rows == c.store.groups.rows[conv.id := env.mls.serialise(conv.group)];
  }

  lemma {:induction false} CommitOneIs(
      env: C.Env, rotate: Rotate, writable: C.Id -> bool, c: C.Central, conv: C.Conversation, id: C.Id)
    requires CommitOne(env, rotate, writable, c, conv).1.Ok?
    ensures var (c', commit) := CommitOne(env, rotate, writable, c, conv);
      && CommitOf(rotate, conv).Some? && commit == Ok(CommitOf(rotate, conv).value.1)
      && Settled(env, c', CommitOf(rotate, conv).value.0)
      && (id != conv.id ==> SameUnder(c, c', id))
  {
    hide Settled, SameUnder, G.Lru.Write;
    WrittenIs(env, c, CommitOf(rotate, conv).value.0, id);
  }

  lemma {:induction false} SameUnderTwice(c: C.Central, c1: C.Central, c2: C.Central, id: C.Id)
    requires SameUnder(c, c1, id) && SameUnder(c1, c2, id)
    ensures SameUnder(c, c2, id)
  {
  }

  lemma {:induction false} SettledStays(env: C.Env, c: C.Central, c': C.Central, conv: C.Conversation)
    requires Settled(env, c, conv) && SameUnder(c, c', conv.id)
    ensures Settled(env, c', conv)
  {
  }

  /** The commit is made, and what it makes of the conversation is settled. */
  ghost predicate Committed(
    env: C.Env, rotate: Rotate, c: C.Central, commits: map<C.Id, Commit>, conv: C.Conversation)
  {
    && CommitOf(rotate, conv).Some?
    && conv.id in commits && commits[conv.id] == CommitOf(rotate, conv).value.1
    && Settled(env, c, CommitOf(rotate, conv).value.0)
  }

  lemma {:induction false} CommitsLeave(
      env: C.Env, rotate: Rotate, writable: C.Id -> bool, c: C.Central, convs: seq<C.Conversation>,
      acc: map<C.Id, Commit>, id: C.Id)
    requires CommitAll(env, rotate, writable, c, convs, acc).1.Ok?
    requires forall i :: 0 <= i < |convs| ==> convs[i].id != id
    ensures var (end, commits) := CommitAll(env, rotate, writable, c, convs, acc);
      && SameUnder(c, end, id)
      && (id in commits.value <==> id in acc) && (id in acc ==> commits.value[id] == acc[id])
    decreases |convs|
  {
    if convs == [] {
      assert SameUnder(c, c, id);
    } else {
      var first := convs[0];
      CommitOneIs(env, rotate, writable, c, first, id);
      var (c1, commit) := CommitOne(env, rotate, writable, c, first);
      hide CommitOne, SameUnder, Settled;
      CommitsLeave(env, rotate, writable, c1, convs[1..], acc[first.id := commit.value], id);
      SameUnderTwice(c, c1, CommitAll(env, rotate, writable, c, convs, acc).0, id);
    }
  }

  lemma {:induction false} CommitsAt(
      env: C.Env, rotate: Rotate, writable: C.Id -> bool, c: C.Central, convs: seq<C.Conversation>,
      acc: map<C.Id, Commit>, i: nat)
    requires CommitAll(env, rotate, writable, c, convs, acc).1.Ok? && i < |convs|
    requires forall j, k :: 0 <= j < k < |convs| ==> convs[j].id != convs[k].id
    ensures var (end, commits) := CommitAll(env, rotate, writable, c, convs, acc);
      Committed(env, rotate, end, commits.value, convs[i])
    decreases |convs|
  {
    var (first, rest) := (convs[0], convs[1..]);
    CommitOneIs(env, rotate, writable, c, first, first.id);
    var (c1, commit) := CommitOne(env, rotate, writable, c, first);
    var acc' := acc[first.id := commit.value];
    var (end, commits) := CommitAll(env, rotate, writable, c, convs, acc);
    assert (end, commits) == CommitAll(env, rotate, writable, c1, rest, acc');
    hide CommitOne, CommitAll, SameUnder, Settled;
    if i == 0 {
      assert forall j :: 0 <= j < |rest| ==> rest[j] == convs[j + 1];
      CommitsLeave(env, rotate, writable, c1, rest, acc', first.id);
      SettledStays(env, c1, end, CommitOf(rotate, first).value.0);
    } else {
      CommitsAt(env, rotate, writable, c1, rest, acc', i - 1);
    }
  }

  /** The commits all succeed exactly when each group can be committed to, and each write works. */
  lemma {:induction false} CommitsSucceed(
      env: C.Env, rotate: Rotate, writable: C.Id -> bool, c: C.Central, convs: seq<C.Conversation>,
      acc: map<C.Id, Commit>)
    ensures CommitAll(env, rotate, writable, c, convs, acc).1.Ok? <==>
      forall conv :: conv in convs ==> rotate(conv.group).Some? && writable(conv.id)
    decreases |convs|
  {
    if convs != [] {
      var first := convs[0];
      assert convs == [first] + convs[1..];
      var (c1, commit) := CommitOne(env, rotate, writable, c, first);
      assert commit.Ok? <==> rotate(first.group).Some? && writable(first.id);
      hide CommitOne;
      if commit.Ok? {
        CommitsSucceed(env, rotate, writable, c1, convs[1..], acc[first.id := commit.value]);
      }
    }
  }

  /** The conversations fetched: where the active one under an id is among them, and that there is no other. */
  lemma {:induction false} FetchedAt(mls: C.Mls, groups: Table<C.Id, C.Raw>, id: C.Id)
    requires AllParse(mls, groups)
    ensures C.FetchAll(mls, groups.FindAll()).Some?
    ensures var convs := Seconds(C.FetchAll(mls, groups.FindAll()).value);
      var active := StoredActive(mls, groups, id);
      && (forall i, j :: 0 <= i < j < |convs| ==> convs[i].id != convs[j].id)
      && (if active.Some? then active.value.id == id && active.value in convs
          else forall i :: 0 <= i < |convs| ==> convs[i].id != id)
  {
    FetchAllIsEveryActiveOne(mls, groups);
    FetchedUnderOwnIds(mls, groups);
    var items := C.FetchAll(mls, groups.FindAll()).value;
    var convs := Seconds(items);
    var active := StoredActive(mls, groups, id);
    hide C.FetchAll, Rows.FindAll, StoredActive;
    assert forall i :: 0 <= i < |convs| ==> convs[i].id == Firsts(items)[i] && items[i] in items;
    if active.Some? {
      assert (id, active.value) in items;
      var i :| 0 <= i < |items| && items[i] == (id, active.value);
      assert convs[i] == active.value;
    }
  }

  /**
   When the commits succeed there is exactly one for each stored conversation this client is still a
   member of, made from the stored group, whatever was in memory; and what it makes of the group is
   what is stored then, and what is in memory. Under any other id nothing has changed.
   */
  lemma {:induction false} OneCommitPerConversation(
      env: C.Env, rotate: Rotate, writable: C.Id -> bool, c: C.Central, id: C.Id)
    requires AllParse(env.mls, c.store.groups)
    ensures C.FetchAll(env.mls, c.store.groups.FindAll()).Some?
    ensures var convs := Seconds(C.FetchAll(env.mls, c.store.groups.FindAll()).value);
      var (end, commits) := CommitAll(env, rotate, writable, c, convs, map[]);
      var active := StoredActive(env.mls, c.store.groups, id);
      && (commits.Ok? <==> forall conv :: conv in convs ==> rotate(conv.group).Some? && writable(conv.id))
      && (commits.Ok? ==>
        && (id in commits.value <==> active.Some?)
        && (active.Some? ==> active.value.id == id && Committed(env, rotate, end, commits.value, active.value))
        && (active.None? ==> SameUnder(c, end, id)))
  {
    FetchedAt(env.mls, c.store.groups, id);
    var convs := Seconds(C.FetchAll(env.mls, c.store.groups.FindAll()).value);
    var active := StoredActive(env.mls, c.store.groups, id);
    CommitsSucceed(env, rotate, writable, c, convs, map[]);
    hide C.FetchAll, Rows.FindAll, StoredActive, CommitOf, Settled, SameUnder, CommitAll;
    if CommitAll(env, rotate, writable, c, convs, map[]).1.Ok? {
      if active.Some? {
        var i :| 0 <= i < |convs| && convs[i] == active.value;
        CommitsAt(env, rotate, writable, c, convs, map[], i);
      } else {
        CommitsLeave(env, rotate, writable, c, convs, map[], id);
      }
    }
  }

  lemma {:induction false} FetchedUnderOwnIds(mls: C.Mls, groups: Table<C.Id, C.Raw>)
    requires AllParse(mls, groups)
    ensures C.FetchAll(mls, groups.FindAll()).Some?
    ensures forall item :: item in C.FetchAll(mls, groups.FindAll()).value ==>
      item.1.id == item.0 && StoredActive(mls, groups, item.0) == Some(item.1)
  {
    FetchAllIsEveryActiveOne(mls, groups);
    var items := C.FetchAll(mls, groups.FindAll()).value;
    hide C.FetchAll, Rows.FindAll;
    forall item | item in items
      ensures item.1.id == item.0 && StoredActive(mls, groups, item.0) == Some(item.1)
    {
      assert (item.0, item.1) in items;
    }
  }
}
